// Artifact URLs: how the two services build them, how the client rewrites them, and how the
// HTTP router splits them into the key under which the bytes are stored.
module Addressing {
  import opened Types

  datatype ArtifactType =
    | UnspecifiedArtifactType
    | ProgramArtifact
    | StdinArtifact
    | ProofArtifact
    | TransactionArtifact

  const ARTIFACT_HOST: string := "spn-coordinator-001"
  const LOCAL_HOST: string := "localhost"

  function TypeFromWire(n: int): Option<ArtifactType> {
    if n == 0 then Some(UnspecifiedArtifactType)
    else if n == 1 then Some(ProgramArtifact)
    else if n == 2 then Some(StdinArtifact)
    else if n == 3 then Some(ProofArtifact)
    else if n == 4 then Some(TransactionArtifact)
    else None
  }

  // The client's side: `artifact_type as i32`.
  function TypeToWire(t: ArtifactType): int {
    match t
    case UnspecifiedArtifactType => 0
    case ProgramArtifact => 1
    case StdinArtifact => 2
    case ProofArtifact => 3
    case TransactionArtifact => 4
  }

  // The server decodes what the client encodes and nothing else: the five values of the protocol.
  lemma WireRoundTrip(n: int, t: ArtifactType)
    ensures TypeFromWire(n) == Some(t) <==> n == TypeToWire(t)
    ensures TypeFromWire(n).Some? <==> 0 <= n <= 4
  {
  }

  // The `{:?}` form of the enum.
  function TypeName(t: ArtifactType): string {
    match t
    case UnspecifiedArtifactType => "UnspecifiedArtifactType"
    case ProgramArtifact => "Program"
    case StdinArtifact => "Stdin"
    case ProofArtifact => "Proof"
    case TransactionArtifact => "Transaction"
  }

  // The numbers of the protocol and the names in the URLs.
  lemma WireNames(n: int)
    ensures 0 <= n <= 4 ==>
              var names := ["UnspecifiedArtifactType", "Program", "Stdin", "Proof", "Transaction"];
              TypeFromWire(n).Some? && TypeName(TypeFromWire(n).value) == names[n]
  {
    TypeNamesAre();
  }

  /* ----- hex::encode ----- */

  const HEX_DIGITS: string := "0123456789abcdef"

  function Hex(bytes: Bytes): string {
    if bytes == [] then ""
    else [HEX_DIGITS[bytes[0] as int / 16], HEX_DIGITS[bytes[0] as int % 16]] + Hex(bytes[1..])
  }

  lemma HexDigitsDiffer(i: nat, j: nat)
    requires i < 16 && j < 16 && HEX_DIGITS[i] == HEX_DIGITS[j]
    ensures i == j
  {
  }

  lemma {:induction false} HexAlphabet(bytes: Bytes)
    ensures |Hex(bytes)| == 2 * |bytes|
    ensures forall k :: 0 <= k < |Hex(bytes)| ==> Hex(bytes)[k] in HEX_DIGITS
  {
    if bytes != [] {
      HexAlphabet(bytes[1..]);
    }
  }

  // Distinct identifiers have distinct hex forms.
  lemma {:induction false} HexInjective(a: Bytes, b: Bytes)
    requires Hex(a) == Hex(b)
    ensures a == b
  {
    HexAlphabet(a);
    HexAlphabet(b);
    if a != [] {
      assert Hex(a)[0] == Hex(b)[0] && Hex(a)[1] == Hex(b)[1];
      HexDigitsDiffer(a[0] as int / 16, b[0] as int / 16);
      HexDigitsDiffer(a[0] as int % 16, b[0] as int % 16);
      assert a[0] == b[0];
      assert Hex(a[1..]) == Hex(a)[2..] == Hex(b)[2..] == Hex(b[1..]);
      HexInjective(a[1..], b[1..]);
      assert a == [a[0]] + a[1..] == [b[0]] + b[1..] == b;
    }
  }

  function DigitValue(c: char): int {
    if '0' <= c <= '9' then c as int - '0' as int
    else if 'a' <= c <= 'f' then c as int - 'a' as int + 10
    else -1
  }

  lemma DigitIs(i: nat)
    requires i < 16
    ensures DigitValue(HEX_DIGITS[i]) == i
  {
  }

  // Each byte reads back from its two lower-case digits, the higher one first.
  lemma {:induction false} HexReadsBack(bytes: Bytes, k: nat)
    requires k < |bytes|
    ensures |Hex(bytes)| == 2 * |bytes|
    ensures var high, low := DigitValue(Hex(bytes)[2 * k]), DigitValue(Hex(bytes)[2 * k + 1]);
            0 <= high < 16 && 0 <= low < 16 && bytes[k] as int == 16 * high + low
  {
    HexAlphabet(bytes);
    DigitIs(bytes[0] as int / 16);
    DigitIs(bytes[0] as int % 16);
    if k > 0 {
      HexReadsBack(bytes[1..], k - 1);
      var tail := Hex(bytes[1..]);
      assert Hex(bytes)[2 * k] == tail[2 * (k - 1)] && Hex(bytes)[2 * k + 1] == tail[2 * (k - 1) + 1];
      assert bytes[1..][k - 1] == bytes[k];
    }
  }

  /* ----- the URLs ----- */

  const PORT: string := ":8082"

  function UrlOn(host: string, segments: Segments): string {
    SCHEME + ((host + PORT) + (ARTIFACTS + Key(segments)))
  }

  function PresignedUrl(t: ArtifactType, id: string): string {
    UrlOn(ARTIFACT_HOST, Segments(TypeName(t), id))
  }

  function ProofUrl(nonce: Bytes): string {
    UrlOn(LOCAL_HOST, Segments(TypeName(ProofArtifact), Hex(nonce)))
  }

  // The client's rewrite of a presigned URL.
  function ClientPutUrl(presigned: string): string {
    ReplaceAll(presigned, ARTIFACT_HOST, LOCAL_HOST)
  }

  // `str::replace`: every leftmost, non-overlapping occurrence.
  function ReplaceAll(s: string, from: string, to: string): string
    requires from != ""
  {
    if s == "" then ""
    else if from <= s then to + ReplaceAll(s[|from|..], from, to)
    else [s[0]] + ReplaceAll(s[1..], from, to)
  }

  ghost predicate Occurs(from: string, s: string) {
    exists i :: 0 <= i <= |s| && from <= s[i..]
  }

  lemma OccursInTail(from: string, s: string)
    requires s != "" && from != ""
    ensures Occurs(from, s) <==> from <= s || Occurs(from, s[1..])
  {
    if i :| 0 <= i <= |s| && from <= s[i..] {
      if i > 0 {
        assert s[1..][i - 1..] == s[i..];
      }
    }
    if from <= s {
      assert s[0..] == s;
    }
    if i :| 0 <= i <= |s[1..]| && from <= s[1..][i..] {
      assert s[1..][i..] == s[i + 1..];
    }
  }

  // With a shorter replacement, a string is left alone exactly when nothing in it matches.
  lemma {:induction false} ReplaceAllFixes(s: string, from: string, to: string)
    requires |to| < |from|
    ensures |ReplaceAll(s, from, to)| <= |s|
    ensures ReplaceAll(s, from, to) == s <==> !Occurs(from, s)
    ensures Occurs(from, s) ==> |ReplaceAll(s, from, to)| < |s|
    decreases |s|
  {
    if s == "" {
    } else if from <= s {
      OccursInTail(from, s);
      ReplaceAllFixes(s[|from|..], from, to);
    } else {
      OccursInTail(from, s);
      ReplaceAllFixes(s[1..], from, to);
      assert s == [s[0]] + s[1..];
    }
  }

  /* ----- the router ----- */

  function IndexOf(s: string, c: char): (k: nat)
    ensures k <= |s|
    ensures k < |s| ==> s[k] == c
    ensures forall i :: 0 <= i < k ==> s[i] != c
  {
    if s == "" || s[0] == c then 0 else 1 + IndexOf(s[1..], c)
  }

  lemma IndexOfIs(s: string, c: char, k: nat)
    requires k <= |s| && (k < |s| ==> s[k] == c) && forall i :: 0 <= i < k ==> s[i] != c
    ensures IndexOf(s, c) == k
  {
  }

  // A path segment: not empty and without '/' (section 3.3 of RFC 3986).
  predicate IsSegment(s: string) {
    s != "" && '/' !in s
  }

  datatype Segments = Segments(kind: string, id: string)

  const SCHEME: string := "http://"
  const ARTIFACTS: string := "/artifacts/"

  // The path pattern "/artifacts/{artifact_type}/{artifact_id}", with `base` the fixed part.
  function RoutePath(base: string, path: string): Option<Segments> {
    if base <= path then
      var rest := path[|base|..];
      var k := IndexOf(rest, '/');
      if k < |rest| && IsSegment(rest[..k]) && IsSegment(rest[k + 1..])
      then Some(Segments(rest[..k], rest[k + 1..]))
      else None
    else None
  }

  // The router sees the part of the URL that follows the authority.
  function RouteUrl(scheme: string, base: string, url: string): Option<Segments> {
    if scheme <= url then
      var rest := url[|scheme|..];
      RoutePath(base, rest[IndexOf(rest, '/')..])
    else None
  }

  function Route(url: string): Option<Segments> {
    RouteUrl(SCHEME, ARTIFACTS, url)
  }

  // The storage key the HTTP handlers build from the two segments.
  function Key(segments: Segments): string {
    segments.kind + "/" + segments.id
  }

  lemma KeyInjective(a: Segments, b: Segments)
    requires '/' !in a.kind && '/' !in b.kind
    ensures Key(a) == Key(b) <==> a == b
  {
    if Key(a) == Key(b) {
      IndexOfIs(Key(a), '/', |a.kind|);
      IndexOfIs(Key(b), '/', |b.kind|);
      assert a.kind == Key(a)[..|a.kind|] == b.kind;
      assert a.id == Key(a)[|a.kind| + 1..] == b.id;
    }
  }

  lemma PathSplits(base: string, s: Segments)
    requires IsSegment(s.kind) && IsSegment(s.id)
    ensures RoutePath(base, base + Key(s)) == Some(s)
  {
    var rest := (base + Key(s))[|base|..];
    assert rest == Key(s);
    IndexOfIs(rest, '/', |s.kind|);
    assert rest[..|s.kind|] == s.kind && rest[|s.kind| + 1..] == s.id;
  }

  lemma PathJoins(base: string, path: string, s: Segments)
    requires RoutePath(base, path) == Some(s)
    ensures IsSegment(s.kind) && IsSegment(s.id) && path == base + Key(s)
  {
    var rest := path[|base|..];
    assert path == base + rest;
    assert rest == Key(s);
  }

  // The router accepts exactly the URLs of its shape, and splits them where they were joined.
  lemma RouteExact(scheme: string, authority: string, base: string, path: string, s: Segments)
    requires '/' !in authority && base != "" && base[0] == '/'
    requires path != "" && path[0] == '/'
    ensures RouteUrl(scheme, base, scheme + (authority + path)) == Some(s) <==>
            IsSegment(s.kind) && IsSegment(s.id) && path == base + Key(s)
  {
    var url := scheme + (authority + path);
    var rest := url[|scheme|..];
    assert rest == authority + path;
    IndexOfIs(rest, '/', |authority|);
    assert rest[|authority|..] == path;
    if IsSegment(s.kind) && IsSegment(s.id) && path == base + Key(s) {
      PathSplits(base, s);
    }
    if RoutePath(base, path) == Some(s) {
      PathJoins(base, path, s);
    }
  }

  // The router of the server: after any authority it accepts "/artifacts/{type}/{id}" with two
  // non-empty parts without '/', and nothing else.
  lemma RouteIs(authority: string, path: string, s: Segments)
    requires '/' !in authority && path != "" && path[0] == '/'
    ensures Route("http://" + (authority + path)) == Some(s) <==>
            && s.kind != "" && '/' !in s.kind && s.id != "" && '/' !in s.id
            && path == "/artifacts/" + (s.kind + "/" + s.id)
  {
    RouteExact(SCHEME, authority, ARTIFACTS, path, s);
  }

  /* ----- the two services, the client and the router agree ----- */

  lemma TypeNameIsSegment(t: ArtifactType)
    ensures IsSegment(TypeName(t))
  {
  }

  lemma TypeNamesDiffer(t: ArtifactType, u: ArtifactType)
    requires TypeName(t) == TypeName(u)
    ensures t == u
  {
    assert |TypeName(t)| == |TypeName(u)|;
    assert TypeName(t)[0] == TypeName(u)[0] && TypeName(t)[1] == TypeName(u)[1];
    assert TypeName(t)[3] == TypeName(u)[3];
  }

  lemma HexIsSegment(bytes: Bytes)
    requires bytes != []
    ensures IsSegment(Hex(bytes))
  {
    HexAlphabet(bytes);
  }

  // A URL on a host without '/' names its two segments exactly when both are proper segments.
  lemma UrlRoutes(host: string, s: Segments)
    requires '/' !in host && IsSegment(s.kind) && IsSegment(s.id)
    ensures Route(UrlOn(host, s)) == Some(s)
  {
    assert '/' !in host + PORT;
    assert ARTIFACTS[0] == '/';
    assert (ARTIFACTS + Key(s))[0] == '/';
    RouteExact(SCHEME, host + PORT, ARTIFACTS, ARTIFACTS + Key(s), s);
  }

  // The presigned URL reaches the key "type/id" for every type and every one-segment id.
  lemma PresignedRoutes(t: ArtifactType, id: string)
    requires IsSegment(id)
    ensures Route(PresignedUrl(t, id)) == Some(Segments(TypeName(t), id))
  {
    TypeNameIsSegment(t);
    UrlRoutes(ARTIFACT_HOST, Segments(TypeName(t), id));
  }

  // A proof URL names the artifact "Proof/<hex of its 16 bytes>".
  lemma ProofUrlRoutes(nonce: Bytes)
    requires nonce != []
    ensures Route(ProofUrl(nonce)) == Some(Segments(TypeName(ProofArtifact), Hex(nonce)))
  {
    HexIsSegment(nonce);
    TypeNameIsSegment(ProofArtifact);
    UrlRoutes(LOCAL_HOST, Segments(TypeName(ProofArtifact), Hex(nonce)));
  }

  // A prefix that ends in '/' and lacks one of the characters of `from` hides no occurrence of it.
  lemma OccursOnlyAfter(from: string, d: nat, prefix: string, rest: string)
    requires d < |from| && from[d] !in prefix && '/' !in from
    requires prefix != "" && prefix[|prefix| - 1] == '/'
    ensures Occurs(from, prefix + rest) <==> Occurs(from, rest)
  {
    var s := prefix + rest;
    forall i | 0 <= i < |prefix|
      ensures !(from <= s[i..])
    {
      var t := s[i..];
      if i + d < |prefix| {
        assert t[d] == prefix[i + d];
      } else {
        assert t[|prefix| - 1 - i] == '/';
      }
    }
    if i :| 0 <= i <= |s| && from <= s[i..] {
      assert s[i..] == rest[i - |prefix|..];
    }
    if i :| 0 <= i <= |rest| && from <= rest[i..] {
      assert s[|prefix| + i..] == rest[i..];
    }
  }

  lemma {:induction false} ReplaceAllSkips(prefix: string, rest: string, from: string, to: string)
    requires from != ""
    requires from[0] !in prefix
    ensures ReplaceAll(prefix + rest, from, to) == prefix + ReplaceAll(rest, from, to)
  {
    if prefix == "" {
      assert prefix + rest == rest;
    } else {
      var s := prefix + rest;
      assert s[1..] == prefix[1..] + rest;
      ReplaceAllSkips(prefix[1..], rest, from, to);
      assert !(from <= s);
      assert prefix == [prefix[0]] + prefix[1..];
    }
  }

  // Rewriting scheme + from + middle + id leaves all but the host alone iff id hides no host.
  lemma RewriteExact(scheme: string, from: string, d: nat, to: string, middle: string, id: string)
    requires d < |from| && from[d] !in middle && '/' !in from && |to| < |from| && from[0] !in scheme
    requires middle != "" && middle[|middle| - 1] == '/'
    ensures ReplaceAll(scheme + (from + (middle + id)), from, to) == scheme + (to + (middle + id)) <==>
            !Occurs(from, id)
  {
    var tail := middle + id;
    ReplaceAllSkips(scheme, from + tail, from, to);
    assert from <= from + tail && (from + tail)[|from|..] == tail;
    var rewritten := ReplaceAll(tail, from, to);
    assert ReplaceAll(scheme + (from + tail), from, to) == scheme + (to + rewritten);
    ReplaceAllFixes(tail, from, to);
    OccursOnlyAfter(from, d, middle, id);
    if scheme + (to + rewritten) == scheme + (to + tail) {
      assert (scheme + (to + rewritten))[|scheme| + |to|..] == rewritten;
      assert (scheme + (to + tail))[|scheme| + |to|..] == tail;
    }
  }

  lemma TypeNameLacksDash(t: ArtifactType)
    ensures '-' !in TypeName(t)
  {
  }

  lemma UrlParts(scheme: string, host: string, port: string, base: string, kind: string, id: string)
    ensures scheme + ((host + port) + (base + (kind + "/" + id))) == scheme + (host + ((port + base + kind + "/") + id))
  {
    assert (host + port) + (base + (kind + "/" + id)) == host + ((port + base + kind + "/") + id);
  }

  // The client's rewrite changes the host and nothing else, exactly when the identifier does
  // not itself contain the host name.
  lemma ClientRewriteExact(t: ArtifactType, id: string)
    ensures ClientPutUrl(PresignedUrl(t, id)) == UrlOn(LOCAL_HOST, Segments(TypeName(t), id)) <==>
            !Occurs(ARTIFACT_HOST, id)
  {
    TypeNameLacksDash(t);
    UrlParts(SCHEME, ARTIFACT_HOST, PORT, ARTIFACTS, TypeName(t), id);
    UrlParts(SCHEME, LOCAL_HOST, PORT, ARTIFACTS, TypeName(t), id);
    assert ARTIFACT_HOST[3] == '-';
    RewriteExact(SCHEME, ARTIFACT_HOST, 3, LOCAL_HOST, PORT + ARTIFACTS + TypeName(t) + "/", id);
  }

  lemma HexHidesNoHost(bytes: Bytes)
    ensures !Occurs(ARTIFACT_HOST, Hex(bytes))
  {
    HexAlphabet(bytes);
    var id := Hex(bytes);
    assert 's' !in HEX_DIGITS;
    forall i | 0 <= i <= |id|
      ensures !(ARTIFACT_HOST <= id[i..])
    {
      assert ARTIFACT_HOST[0] == 's';
      if i < |id| {
        assert id[i..][0] == id[i];
      }
    }
  }

  // The identifiers the service draws are hex, so the rewrite always succeeds on them ...
  lemma ClientRewritesHex(t: ArtifactType, bytes: Bytes)
    ensures ClientPutUrl(PresignedUrl(t, Hex(bytes))) == UrlOn(LOCAL_HOST, Segments(TypeName(t), Hex(bytes)))
  {
    HexHidesNoHost(bytes);
    ClientRewriteExact(t, Hex(bytes));
  }

  // ... and the client's PUT reaches the artifact that the presigned URL names.
  lemma ClientUploadReachesKey(t: ArtifactType, bytes: Bytes)
    requires bytes != []
    ensures Route(ClientPutUrl(PresignedUrl(t, Hex(bytes)))) == Some(Segments(TypeName(t), Hex(bytes)))
  {
    ClientRewritesHex(t, bytes);
    HexIsSegment(bytes);
    TypeNameIsSegment(t);
    UrlRoutes(LOCAL_HOST, Segments(TypeName(t), Hex(bytes)));
  }

  lemma SegmentsAgree(t: ArtifactType, a: Bytes, u: ArtifactType, b: Bytes)
    ensures Key(Segments(TypeName(t), Hex(a))) == Key(Segments(TypeName(u), Hex(b))) <==> t == u && a == b
  {
    TypeNameIsSegment(t);
    TypeNameIsSegment(u);
    KeyInjective(Segments(TypeName(t), Hex(a)), Segments(TypeName(u), Hex(b)));
    if Hex(a) == Hex(b) {
      HexInjective(a, b);
    }
    if TypeName(t) == TypeName(u) {
      TypeNamesDiffer(t, u);
    }
  }

  // Two artifacts share a storage key iff they have the same type and the same identifier ...
  lemma PresignedKeysAgree(t: ArtifactType, a: Bytes, u: ArtifactType, b: Bytes)
    requires a != [] && b != []
    ensures Route(PresignedUrl(t, Hex(a))).Some? && Route(PresignedUrl(u, Hex(b))).Some?
    ensures Key(Route(PresignedUrl(t, Hex(a))).value) == Key(Route(PresignedUrl(u, Hex(b))).value) <==> t == u && a == b
  {
    HexIsSegment(a);
    HexIsSegment(b);
    PresignedRoutes(t, Hex(a));
    PresignedRoutes(u, Hex(b));
    SegmentsAgree(t, a, u, b);
  }

  // ... whichever service named them: the proof service's keys are those of type "Proof".
  lemma ProofKeysAgree(t: ArtifactType, a: Bytes, b: Bytes)
    requires a != [] && b != []
    ensures Route(PresignedUrl(t, Hex(a))).Some? && Route(ProofUrl(b)).Some?
    ensures Key(Route(PresignedUrl(t, Hex(a))).value) == Key(Route(ProofUrl(b)).value) <==> t == ProofArtifact && a == b
  {
    HexIsSegment(a);
    PresignedRoutes(t, Hex(a));
    ProofUrlRoutes(b);
    SegmentsAgree(t, a, ProofArtifact, b);
  }

  /* ----- the URLs, written out ----- */

  lemma TypeNamesAre()
    ensures TypeName(ProgramArtifact) == "Program" && TypeName(StdinArtifact) == "Stdin"
    ensures TypeName(ProofArtifact) == "Proof" && TypeName(TransactionArtifact) == "Transaction"
    ensures TypeName(UnspecifiedArtifactType) == "UnspecifiedArtifactType"
  {
  }

  lemma FixedPart(scheme: string, host: string, port: string, base: string, rest: string, fixed: string)
    requires fixed == scheme + host + port + base
    ensures scheme + ((host + port) + (base + rest)) == fixed + rest
  {
    assert (host + port) + (base + rest) == host + port + base + rest;
  }

  lemma PresignedPrefix()
    ensures SCHEME + ARTIFACT_HOST + PORT + ARTIFACTS == "http://spn-coordinator-001:8082/artifacts/"
  {
  }

  lemma LocalPrefix()
    ensures SCHEME + LOCAL_HOST + PORT + ARTIFACTS == "http://localhost:8082/artifacts/"
  {
  }

  // The presigned URLs are on the coordinator's host, ...
  lemma PresignedUrlIs(t: ArtifactType, id: string)
    ensures PresignedUrl(t, id) == "http://spn-coordinator-001:8082/artifacts/" + (TypeName(t) + "/" + id)
  {
    PresignedPrefix();
    FixedPart(SCHEME, ARTIFACT_HOST, PORT, ARTIFACTS, TypeName(t) + "/" + id,
              "http://spn-coordinator-001:8082/artifacts/");
  }

  lemma LocalUrlIs(t: ArtifactType, id: string)
    ensures UrlOn(LOCAL_HOST, Segments(TypeName(t), id))
            == "http://localhost:8082/artifacts/" + (TypeName(t) + "/" + id)
  {
    LocalPrefix();
    FixedPart(SCHEME, LOCAL_HOST, PORT, ARTIFACTS, TypeName(t) + "/" + id, "http://localhost:8082/artifacts/");
  }

  // ... the client puts to the server itself, ...
  lemma ClientPutUrlIs(t: ArtifactType, bytes: Bytes)
    ensures ClientPutUrl(PresignedUrl(t, Hex(bytes)))
            == "http://localhost:8082/artifacts/" + (TypeName(t) + "/" + Hex(bytes))
  {
    ClientRewritesHex(t, bytes);
    LocalUrlIs(t, Hex(bytes));
  }

  // ... and so does a fulfilment.
  lemma ProofUrlIs(nonce: Bytes)
    ensures ProofUrl(nonce) == "http://localhost:8082/artifacts/" + ("Proof" + "/" + Hex(nonce))
  {
    TypeNamesAre();
    LocalUrlIs(ProofArtifact, Hex(nonce));
  }
}
