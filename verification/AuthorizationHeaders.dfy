/** HTTP headers per URI, built in place, and their assignment from qualifiers. */
module AuthorizationHeaders {
  import opened Common
  import opened Qualifiers

  const HTTP_HEADER_PREFIX := "http_header:"

  type Headers = map<string, map<string, string>>

  function ValueOf(headers: Headers, uri: string, header: string): Option<string> {
    if uri in headers && header in headers[uri] then Some(headers[uri][header]) else None
  }

  function WithHeader(headers: Headers, uri: string, header: string, value: string): Headers {
    headers[uri := (if uri in headers then headers[uri] else map[])[header := value]]
  }

  function WithHeaderForAll(headers: Headers, uris: seq<string>, header: string, value: string): Headers {
    if uris == [] then headers
    else
      var n := |uris| - 1;
      WithHeader(WithHeaderForAll(headers, uris[..n], header, value), uris[n], header, value)
  }

  // ---- The nested map and its application to a request ----

  /** `after` is `before` with each of the keys set, in some order, under its canonical name. */
  ghost predicate Applied(before: map<string, string>, after: map<string, string>, keys: set<string>,
                          chosen: map<string, string>, canonical: string -> string)
    requires keys <= chosen.Keys
  {
    forall name ::
      if exists k :: k in keys && canonical(k) == name then
        name in after && exists k :: k in keys && canonical(k) == name && after[name] == chosen[k]
      else
        (name in after <==> name in before) && (name in before ==> after[name] == before[name])
  }

  /** A request's headers are determined exactly when headers of the same canonical name carry the same value. */
  lemma AppliedUniqueIff(before: map<string, string>, chosen: map<string, string>, canonical: string -> string)
    ensures (forall a, b | Applied(before, a, chosen.Keys, chosen, canonical) ::
               Applied(before, b, chosen.Keys, chosen, canonical) ==> a == b)
            <==> (forall g, h :: g in chosen && h in chosen && canonical(g) == canonical(h) ==> chosen[g] == chosen[h])
  {
    if g, h :| g in chosen && h in chosen && canonical(g) == canonical(h) && chosen[g] != chosen[h] {
      var some := AppliedExists(before, chosen, canonical);
      var a, b := some[canonical(g) := chosen[g]], some[canonical(h) := chosen[h]];
      assert a[canonical(g)] != b[canonical(g)];
      assert Applied(before, a, chosen.Keys, chosen, canonical);
      assert Applied(before, b, chosen.Keys, chosen, canonical);
    }
  }

  lemma AppliedExists(before: map<string, string>, chosen: map<string, string>, canonical: string -> string)
    returns (after: map<string, string>)
    ensures Applied(before, after, chosen.Keys, chosen, canonical)
  {
    var names := set k | k in chosen :: canonical(k);
    after := map name | name in before.Keys + names ::
      if name in names then (var k :| k in chosen && canonical(k) == name; chosen[k]) else before[name];
  }

  class Request {
    var header: map<string, string>

    constructor ()
      ensures header == map[]
    {
      header := map[];
    }
  }

  class AuthHeaders {
    var headers: Headers

    constructor (headers: Headers)
      ensures this.headers == headers
    {
      this.headers := headers;
    }

    /** Sets one header of one URI and nothing else. */
    method AddHeader(uri: string, header: string, value: string)
      modifies this
      ensures headers == WithHeader(old(headers), uri, header, value)
      ensures forall u, h :: ValueOf(headers, u, h) ==
                if u == uri && h == header then Some(value) else ValueOf(old(headers), u, h)
    {
      if uri !in headers {
        headers := headers[uri := map[]];
      }
      headers := headers[uri := headers[uri][header := value]];
    }

    /** Sets the headers of the URI on a request, in no particular order. */
    method ApplyHeaders(uri: string, req: Request, canonical: string -> string)
      modifies req
      ensures uri in headers ==> Applied(old(req.header), req.header, headers[uri].Keys, headers[uri], canonical)
      ensures uri !in headers ==> req.header == old(req.header)
    {
      if uri in headers {
        var chosen := headers[uri];
        var remaining := chosen.Keys;
        while remaining != {}
          invariant remaining <= chosen.Keys
          invariant Applied(old(req.header), req.header, chosen.Keys - remaining, chosen, canonical)
        {
          var header :| header in remaining;
          ghost var done := chosen.Keys - remaining;
          remaining := remaining - {header};
          req.header := req.header[canonical(header) := chosen[header]];
          assert chosen.Keys - remaining == done + {header};
        }
        assert chosen.Keys - remaining == chosen.Keys;
      }
    }
  }

  // ---- Keys of per-URL headers ----

  function ParseDigits(s: string): Option<nat> {
    if s == [] then None
    else
      var n := |s| - 1;
      if !('0' <= s[n] <= '9') then None
      else if n == 0 then Some((s[0] - '0') as int)
      else match ParseDigits(s[..n])
           case None => None
           case Some(high) => Some(10 * high + (s[n] - '0') as int)
  }

  /** Decimal, with an optional sign, within 64 bits. */
  function ParseInt64(s: string): Option<int> {
    var signed := s != [] && (s[0] == '+' || s[0] == '-');
    match ParseDigits(if signed then s[1..] else s)
    case None => None
    case Some(n) =>
      var i: int := if signed && s[0] == '-' then 0 - n else n;
      if -0x8000_0000_0000_0000 <= i < 0x8000_0000_0000_0000 then Some(i) else None
  }

  /** The URI index and the header that a key `http_header_url:<index>:<header>` names among n URIs. */
  function Target(key: string, n: nat): Option<(nat, string)> {
    var parts := Split(key, ':');
    if |parts| != 3 then None
    else match ParseInt64(parts[1])
         case None => None
         case Some(i) => if 0 <= i < n then Some((i, parts[2])) else None
  }

  function Decimal(n: nat): string {
    if n < 10 then ['0' + n as char] else Decimal(n / 10) + ['0' + (n % 10) as char]
  }

  lemma {:induction false} DecimalParses(n: nat)
    ensures ParseDigits(Decimal(n)) == Some(n)
    ensures forall c :: c in Decimal(n) ==> '0' <= c <= '9'
  {
    if n >= 10 {
      DecimalParses(n / 10);
      var s := Decimal(n);
      assert s[..|s| - 1] == Decimal(n / 10);
    }
  }

  lemma DecimalIsInt64(n: nat)
    ensures ':' !in Decimal(n)
    ensures ParseInt64(Decimal(n)) == if n < 0x8000_0000_0000_0000 then Some(n) else None
  {
    DecimalParses(n);
    assert Decimal(n)[0] in Decimal(n);
  }

  lemma SplitTwice(name: string, index: string, header: string)
    requires ':' !in name && ':' !in index
    ensures Split(name + ":" + index + ":" + header, ':') == [name, index] + Split(header, ':')
  {
    assert name + ":" + index + ":" + header == name + [':'] + (index + [':'] + header);
    SplitAtFirst(name, ':', index + [':'] + header);
    SplitAtFirst(index, ':', header);
  }

  /** Only digits, and at least one of them, are read as a number. */
  lemma {:induction false} DigitsIff(s: string)
    ensures ParseDigits(s).Some? <==> s != "" && forall c :: c in s ==> '0' <= c <= '9'
  {
    if s != "" {
      var n := |s| - 1;
      DigitsIff(s[..n]);
      assert s == s[..n] + [s[n]];
      if c :| c in s && !('0' <= c <= '9') {
        assert c in s[..n] || c == s[n];
      } else {
        assert s[n] in s && (n > 0 ==> s[0] in s);
        assert forall c :: c in s[..n] ==> c in s;
      }
    }
  }

  /** A sign keeps or negates the number, which must fit into 64 bits. */
  lemma SignedDecimal(n: nat)
    ensures ParseInt64("+" + Decimal(n)) == if n <= 9223372036854775807 then Some(n) else None
    ensures ParseInt64("-" + Decimal(n)) == if n <= 9223372036854775808 then Some(-(n as int)) else None
  {
    DecimalParses(n);
    SignedDigits('+', Decimal(n), n);
    SignedDigits('-', Decimal(n), n);
  }

  lemma SignedDigits(sign: char, digits: string, n: nat)
    requires sign == '+' || sign == '-'
    requires ParseDigits(digits) == Some(n)
    ensures var i: int := if sign == '-' then 0 - n else n;
            ParseInt64([sign] + digits) == if -9223372036854775808 <= i <= 9223372036854775807 then Some(i) else None
  {
    var s := [sign] + digits;
    assert s[0] == sign && s[1..] == digits;
  }

  /** What is read as an integer has digits only, after a sign if there is one. */
  lemma Int64Form(s: string)
    ensures ParseInt64(s).Some? ==>
              var digits := if s != "" && s[0] in {'+', '-'} then s[1..] else s;
              digits != "" && forall c :: c in digits ==> '0' <= c <= '9'
  {
    DigitsIff(if s != "" && s[0] in {'+', '-'} then s[1..] else s);
  }

  /** A key addresses a URI exactly if it is three parts between two colons, the second an index in range. */
  lemma TargetIff(key: string, n: nat, i: nat, header: string)
    ensures Target(key, n) == Some((i, header)) <==>
              exists name, index ::
                && key == name + ":" + index + ":" + header
                && ':' !in name && ':' !in index && ':' !in header
                && ParseInt64(index) == Some(i) && i < n
  {
    if Target(key, n) == Some((i, header)) {
      var parts := Split(key, ':');
      JoinThree(key);
      assert key == parts[0] + ":" + parts[1] + ":" + header;
    }
    if name, index :| && key == name + ":" + index + ":" + header
                      && ':' !in name && ':' !in index && ':' !in header
                      && ParseInt64(index) == Some(i) && i < n {
      SplitTwice(name, index, header);
      SplitWithout(header, ':');
    }
  }

  /** A key in three parts is their concatenation, and none of them holds a colon. */
  lemma JoinThree(key: string)
    requires |Split(key, ':')| == 3
    ensures var parts := Split(key, ':');
            && key == parts[0] + ":" + parts[1] + ":" + parts[2]
            && ':' !in parts[0] && ':' !in parts[1] && ':' !in parts[2]
  {
    var x := SplitFirst(key, ':');
    var y := SplitFirst(x, ':');
    SplitWithout(y, ':');
    var parts := Split(key, ':');
    assert parts == [parts[0], parts[1]] + Split(y, ':');
  }

  lemma {:induction false} SplitFirst(s: string, separator: char) returns (rest: string)
    requires |Split(s, separator)| >= 2
    ensures separator !in Split(s, separator)[0]
    ensures s == Split(s, separator)[0] + [separator] + rest && Split(s, separator)[1..] == Split(rest, separator)
  {
    if s[0] == separator {
      rest := s[1..];
    } else {
      rest := SplitFirst(s[1..], separator);
      assert s == [s[0]] + s[1..];
    }
  }

  /** The documented form of a key addresses the i-th URI, unless the header's own name holds a colon. */
  lemma DocumentedKey(i: nat, header: string, n: nat)
    requires n <= 0x8000_0000_0000_0000
    ensures Target("http_header_url:" + Decimal(i) + ":" + header, n) ==
            if i < n && ':' !in header then Some((i, header)) else None
  {
    DecimalIsInt64(i);
    assert HTTP_HEADER_URL_PREFIX == "http_header_url" + ":";
    SplitTwice("http_header_url", Decimal(i), header);
    SplitWithout(header, ':');
  }

  // ---- Assignment from qualifiers ----

  /** The per-URL qualifiers as a map; a later duplicate of a name replaces an earlier one. */
  function PerUrl(qs: seq<Qualifier>): map<string, string> {
    map k | k in AsMap(qs) && HasPrefix(k, HTTP_HEADER_URL_PREFIX) :: AsMap(qs)[k]
  }

  /** The headers for all URIs, applied in the order of the qualifiers. */
  function Global(qs: seq<Qualifier>, uris: seq<string>): Headers {
    if qs == [] then map[]
    else
      var n := |qs| - 1;
      var before := Global(qs[..n], uris);
      if HasPrefix(qs[n].name, HTTP_HEADER_PREFIX) then
        WithHeaderForAll(before, uris, qs[n].name[|HTTP_HEADER_PREFIX|..], qs[n].value)
      else before
  }

  /** One round over the per-URL map, in the order in which its keys come. */
  function Assign(base: Headers, uris: seq<string>, values: map<string, string>, order: seq<string>): Headers {
    if order == [] then base
    else
      var n := |order| - 1;
      var before := Assign(base, uris, values, order[..n]);
      var target := Target(order[n], |uris|);
      if order[n] in values && target.Some? then
        WithHeader(before, uris[target.value.0], target.value.1, values[order[n]])
      else before
  }

  /** An order in which a map with these keys may be iterated. */
  ghost predicate IsOrder(order: seq<string>, keys: set<string>) {
    && (forall k :: k in keys <==> k in order)
    && (forall i, j :: 0 <= i < j < |order| ==> order[i] != order[j])
  }

  ghost predicate Accepted(values: map<string, string>, n: nat) {
    forall k :: k in values ==> Target(k, n).Some?
  }

  /** The headers for a request, when the per-URL map is iterated in the given order. */
  ghost function HeaderOutcome(uris: seq<string>, qs: seq<Qualifier>, order: seq<string>,
                               parse: string -> Option<Headers>): Result<Headers> {
    match FirstNamed(qs, LEGACY_AUTH_HEADERS)
    case Some(legacy) =>
      (match parse(legacy) case Some(headers) => Success(headers) case None => Failure(Unknown))
    case None =>
      if Accepted(PerUrl(qs), |uris|) then Success(Assign(Global(qs, uris), uris, PerUrl(qs), order))
      else Failure(InvalidArgument)
  }

  /** `parse` reads the legacy qualifier, which overrides all others wherever it stands. */
  method GetAuthHeaders(uris: seq<string>, qualifiers: seq<Qualifier>, parse: string -> Option<Headers>)
    returns (auth: Option<AuthHeaders>, code: Code, ghost order: seq<string>)
    ensures FirstNamed(qualifiers, LEGACY_AUTH_HEADERS).None? && auth.Some? ==> IsOrder(order, PerUrl(qualifiers).Keys)
    ensures auth.Some? ==> fresh(auth.value) && code == OK
    ensures HeaderOutcome(uris, qualifiers, order, parse) ==
              if auth.Some? then Success(auth.value.headers) else Failure(code)
  {
    order := [];
    var ah := new AuthHeaders(map[]);
    var perUrl: map<string, string> := map[];
    for i := 0 to |qualifiers|
      invariant fresh(ah) && ah.headers == Global(qualifiers[..i], uris) && perUrl == PerUrl(qualifiers[..i])
      invariant FirstNamed(qualifiers[..i], LEGACY_AUTH_HEADERS).None?
    {
      var q := qualifiers[i];
      FirstNamedPrefix(qualifiers, i, LEGACY_AUTH_HEADERS);
      if q.name == LEGACY_AUTH_HEADERS {
        var parsed := parse(q.value);
        if parsed.None? {
          return None, Unknown, order;
        }
        var legacy := new AuthHeaders(parsed.value);
        return Some(legacy), OK, order;
      }
      assert qualifiers[..i + 1][..i] == qualifiers[..i];
      if HasPrefix(q.name, HTTP_HEADER_PREFIX) {
        AddForAll(ah, uris, q.name[|HTTP_HEADER_PREFIX|..], q.value);
      }
      if HasPrefix(q.name, HTTP_HEADER_URL_PREFIX) {
        perUrl := perUrl[q.name := q.value];
      }
    }
    assert qualifiers[..|qualifiers|] == qualifiers;
    code, order := AddPerUrl(ah, uris, perUrl);
    auth := if code == OK then Some(ah) else None;
  }

  method AddForAll(ah: AuthHeaders, uris: seq<string>, header: string, value: string)
    modifies ah
    ensures ah.headers == WithHeaderForAll(old(ah.headers), uris, header, value)
  {
    for i := 0 to |uris|
      invariant ah.headers == WithHeaderForAll(old(ah.headers), uris[..i], header, value)
    {
      assert uris[..i + 1][..i] == uris[..i];
      ah.AddHeader(uris[i], header, value);
    }
    assert uris[..|uris|] == uris;
  }

  /** The loop over the per-URL map, whose keys come in any order. */
  method AddPerUrl(ah: AuthHeaders, uris: seq<string>, values: map<string, string>)
    returns (code: Code, ghost order: seq<string>)
    modifies ah
    ensures code == if Accepted(values, |uris|) then OK else InvalidArgument
    ensures code == OK ==> IsOrder(order, values.Keys) && ah.headers == Assign(old(ah.headers), uris, values, order)
  {
    order := [];
    var remaining := values.Keys;
    while remaining != {}
      invariant remaining <= values.Keys && IsOrder(order, values.Keys - remaining)
      invariant forall k :: k in order ==> Target(k, |uris|).Some?
      invariant ah.headers == Assign(old(ah.headers), uris, values, order)
    {
      var key :| key in remaining;
      remaining := remaining - {key};
      var parts := Split(key, ':');
      if |parts| != 3 {
        return InvalidArgument, order;
      }
      var index := ParseInt64(parts[1]);
      if index.None? || index.value < 0 || index.value >= |uris| {
        return InvalidArgument, order;
      }
      ah.AddHeader(uris[index.value], parts[2], values[key]);
      assert (order + [key])[..|order|] == order;
      order := order + [key];
    }
    code := OK;
  }

  /**
    The first legacy qualifier alone gives the headers, whatever else there is, or refuses the request if it is
    unreadable.
   */
  lemma LegacyOverrides(uris: seq<string>, a: seq<Qualifier>, legacy: string, b: seq<Qualifier>, order: seq<string>,
                        parse: string -> Option<Headers>)
    requires forall q :: q in a ==> q.name != "bazel.auth_headers"
    ensures HeaderOutcome(uris, a + [Qualifier("bazel.auth_headers", legacy)] + b, order, parse) ==
            if parse(legacy).Some? then Success(parse(legacy).value) else Failure(Unknown)
  {
    FirstNamedAppend(a, Qualifier("bazel.auth_headers", legacy), b);
  }

  // ---- Which header a URI gets ----

  /** The key assigns a value to the header of the URI. */
  ghost predicate Hits(key: string, values: map<string, string>, uris: seq<string>, uri: string, header: string) {
    && key in values && Target(key, |uris|).Some?
    && uris[Target(key, |uris|).value.0] == uri && Target(key, |uris|).value.1 == header
  }

  lemma {:induction false} ForAllValue(headers: Headers, uris: seq<string>, header: string, value: string, u: string,
                                       h: string)
    ensures ValueOf(WithHeaderForAll(headers, uris, header, value), u, h) ==
            if u in uris && h == header then Some(value) else ValueOf(headers, u, h)
  {
    if uris != [] {
      var n := |uris| - 1;
      ForAllValue(headers, uris[..n], header, value, u, h);
      assert uris == uris[..n] + [uris[n]];
    }
  }

  /** A header for all URIs takes its value from the last qualifier with that name. */
  lemma {:induction false} GlobalValue(qs: seq<Qualifier>, uris: seq<string>, uri: string, header: string)
    ensures ValueOf(Global(qs, uris), uri, header) ==
            if uri in uris && "http_header:" + header in AsMap(qs)
            then Some(AsMap(qs)["http_header:" + header]) else None
  {
    if qs != [] {
      var n := |qs| - 1;
      GlobalValue(qs[..n], uris, uri, header);
      if HasPrefix(qs[n].name, HTTP_HEADER_PREFIX) {
        var added := qs[n].name[|HTTP_HEADER_PREFIX|..];
        ForAllValue(Global(qs[..n], uris), uris, added, qs[n].value, uri, header);
        assert qs[n].name == HTTP_HEADER_PREFIX + added;
        assert (HTTP_HEADER_PREFIX + header)[|HTTP_HEADER_PREFIX|..] == header;
      }
    }
  }

  lemma AssignStep(base: Headers, uris: seq<string>, values: map<string, string>, order: seq<string>, uri: string,
                   header: string)
    requires order != []
    ensures var n := |order| - 1;
            ValueOf(Assign(base, uris, values, order), uri, header) ==
            if Hits(order[n], values, uris, uri, header) then Some(values[order[n]])
            else ValueOf(Assign(base, uris, values, order[..n]), uri, header)
  {
  }

  /** The last key that hits decides. */
  lemma {:induction false} AssignedValue(base: Headers, uris: seq<string>, values: map<string, string>,
                                         order: seq<string>, uri: string, header: string)
    ensures var given := ValueOf(Assign(base, uris, values, order), uri, header);
            if exists k :: k in order && Hits(k, values, uris, uri, header) then
              exists k :: k in order && Hits(k, values, uris, uri, header) && given == Some(values[k])
            else given == ValueOf(base, uri, header)
  {
    if order != [] {
      var n := |order| - 1;
      AssignStep(base, uris, values, order, uri, header);
      AssignedValue(base, uris, values, order[..n], uri, header);
      assert order == order[..n] + [order[n]];
    }
  }

  /**
    Each URI gets a per-URL value where a key addresses it, falls back to the last matching value for all URIs, and
    otherwise gets none.
   */
  lemma HeaderGiven(uris: seq<string>, qs: seq<Qualifier>, order: seq<string>, parse: string -> Option<Headers>,
                    uri: string, header: string)
    requires FirstNamed(qs, LEGACY_AUTH_HEADERS).None? && IsOrder(order, PerUrl(qs).Keys)
    requires HeaderOutcome(uris, qs, order, parse).Success?
    ensures var given := ValueOf(HeaderOutcome(uris, qs, order, parse).value, uri, header);
            if exists k :: Hits(k, PerUrl(qs), uris, uri, header) then
              exists k :: Hits(k, PerUrl(qs), uris, uri, header) && given == Some(PerUrl(qs)[k])
            else if uri in uris && HTTP_HEADER_PREFIX + header in AsMap(qs) then
              given == Some(AsMap(qs)[HTTP_HEADER_PREFIX + header])
            else given == None
  {
    AssignedValue(Global(qs, uris), uris, PerUrl(qs), order, uri, header);
    GlobalValue(qs, uris, uri, header);
  }

  // ---- Independence of the iteration order ----

  /** Keys that address the same header of the same URI agree on its value. */
  ghost predicate Unambiguous(values: map<string, string>, uris: seq<string>) {
    forall j, k, uri, header ::
      Hits(j, values, uris, uri, header) && Hits(k, values, uris, uri, header) ==> values[j] == values[k]
  }

  ghost predicate NoEmptyEntry(headers: Headers) {
    forall uri :: uri in headers ==> exists header :: header in headers[uri]
  }

  lemma SubHeaders(a: Headers, b: Headers, uri: string)
    requires NoEmptyEntry(a) && uri in a
    requires forall u, h :: ValueOf(a, u, h) == ValueOf(b, u, h)
    ensures uri in b && forall h :: h in a[uri] ==> h in b[uri] && a[uri][h] == b[uri][h]
  {
    forall h | h in a[uri] ensures uri in b && h in b[uri] && a[uri][h] == b[uri][h] {
      assert ValueOf(a, uri, h) == ValueOf(b, uri, h);
    }
  }

  lemma SameHeaders(a: Headers, b: Headers)
    requires NoEmptyEntry(a) && NoEmptyEntry(b)
    requires forall u, h :: ValueOf(a, u, h) == ValueOf(b, u, h)
    ensures a == b
  {
    forall uri | uri in a ensures uri in b && a[uri] == b[uri] {
      SubHeaders(a, b, uri);
      SubHeaders(b, a, uri);
    }
    forall uri | uri in b ensures uri in a {
      SubHeaders(b, a, uri);
    }
  }

  lemma WithHeaderNotEmpty(headers: Headers, uri: string, header: string, value: string)
    requires NoEmptyEntry(headers)
    ensures NoEmptyEntry(WithHeader(headers, uri, header, value))
  {
    assert header in WithHeader(headers, uri, header, value)[uri];
  }

  lemma {:induction false} ForAllNotEmpty(headers: Headers, uris: seq<string>, header: string, value: string)
    requires NoEmptyEntry(headers)
    ensures NoEmptyEntry(WithHeaderForAll(headers, uris, header, value))
  {
    if uris != [] {
      var n := |uris| - 1;
      ForAllNotEmpty(headers, uris[..n], header, value);
      WithHeaderNotEmpty(WithHeaderForAll(headers, uris[..n], header, value), uris[n], header, value);
    }
  }

  lemma {:induction false} GlobalNotEmpty(qs: seq<Qualifier>, uris: seq<string>)
    ensures NoEmptyEntry(Global(qs, uris))
  {
    if qs != [] {
      var n := |qs| - 1;
      GlobalNotEmpty(qs[..n], uris);
      if HasPrefix(qs[n].name, HTTP_HEADER_PREFIX) {
        ForAllNotEmpty(Global(qs[..n], uris), uris, qs[n].name[|HTTP_HEADER_PREFIX|..], qs[n].value);
      }
    }
  }

  lemma {:induction false} AssignNotEmpty(base: Headers, uris: seq<string>, values: map<string, string>,
                                          order: seq<string>)
    requires NoEmptyEntry(base)
    ensures NoEmptyEntry(Assign(base, uris, values, order))
  {
    if order != [] {
      var n := |order| - 1;
      AssignNotEmpty(base, uris, values, order[..n]);
      var target := Target(order[n], |uris|);
      if order[n] in values && target.Some? {
        WithHeaderNotEmpty(Assign(base, uris, values, order[..n]), uris[target.value.0], target.value.1,
                           values[order[n]]);
      }
    }
  }

  lemma OrdersAgree(base: Headers, uris: seq<string>, values: map<string, string>, o: seq<string>, p: seq<string>)
    requires NoEmptyEntry(base) && Unambiguous(values, uris) && IsOrder(o, values.Keys) && IsOrder(p, values.Keys)
    ensures Assign(base, uris, values, o) == Assign(base, uris, values, p)
  {
    forall uri, header
      ensures ValueOf(Assign(base, uris, values, o), uri, header) == ValueOf(Assign(base, uris, values, p), uri, header)
    {
      AssignedValue(base, uris, values, o, uri, header);
      AssignedValue(base, uris, values, p, uri, header);
      forall k | Hits(k, values, uris, uri, header) ensures k in o && k in p {
        assert k in values.Keys;
      }
    }
    AssignNotEmpty(base, uris, values, o);
    AssignNotEmpty(base, uris, values, p);
    SameHeaders(Assign(base, uris, values, o), Assign(base, uris, values, p));
  }

  lemma {:induction false} OrderOf(keys: set<string>) returns (order: seq<string>)
    ensures IsOrder(order, keys)
    decreases keys
  {
    if keys == {} {
      order := [];
    } else {
      var key :| key in keys;
      order := OrderOf(keys - {key});
      order := order + [key];
    }
  }

  lemma OrderEndingWith(keys: set<string>, key: string) returns (order: seq<string>)
    requires key in keys
    ensures IsOrder(order, keys) && order != [] && order[|order| - 1] == key
  {
    order := OrderOf(keys - {key});
    order := order + [key];
  }

  lemma OrdersDiffer(base: Headers, uris: seq<string>, values: map<string, string>)
    returns (o: seq<string>, p: seq<string>)
    requires !Unambiguous(values, uris)
    ensures IsOrder(o, values.Keys) && IsOrder(p, values.Keys)
    ensures Assign(base, uris, values, o) != Assign(base, uris, values, p)
  {
    var j, k, uri, header :|
      Hits(j, values, uris, uri, header) && Hits(k, values, uris, uri, header) && values[j] != values[k];
    o := OrderEndingWith(values.Keys, j);
    p := OrderEndingWith(values.Keys, k);
    AssignStep(base, uris, values, o, uri, header);
    AssignStep(base, uris, values, p, uri, header);
  }

  lemma OutcomesAgreeIff(uris: seq<string>, qs: seq<Qualifier>, o: seq<string>, p: seq<string>,
                         parse: string -> Option<Headers>)
    requires FirstNamed(qs, LEGACY_AUTH_HEADERS).None? && Accepted(PerUrl(qs), |uris|)
    ensures HeaderOutcome(uris, qs, o, parse) == HeaderOutcome(uris, qs, p, parse) <==>
            Assign(Global(qs, uris), uris, PerUrl(qs), o) == Assign(Global(qs, uris), uris, PerUrl(qs), p)
  {
  }

  /** The legacy qualifier overrides the per-URL map, or some key is refused, or the keys are unambiguous. */
  ghost predicate Settled(uris: seq<string>, qs: seq<Qualifier>) {
    FirstNamed(qs, LEGACY_AUTH_HEADERS).Some? || !Accepted(PerUrl(qs), |uris|) || Unambiguous(PerUrl(qs), uris)
  }

  lemma SettledOutcomesAgree(uris: seq<string>, qs: seq<Qualifier>, o: seq<string>, p: seq<string>,
                             parse: string -> Option<Headers>)
    requires Settled(uris, qs) && IsOrder(o, PerUrl(qs).Keys) && IsOrder(p, PerUrl(qs).Keys)
    ensures HeaderOutcome(uris, qs, o, parse) == HeaderOutcome(uris, qs, p, parse)
  {
    if FirstNamed(qs, LEGACY_AUTH_HEADERS).None? && Accepted(PerUrl(qs), |uris|) {
      GlobalNotEmpty(qs, uris);
      OrdersAgree(Global(qs, uris), uris, PerUrl(qs), o, p);
    }
  }

  /**
    The result, headers or refusal, is the same for every iteration order of the per-URL map exactly when it is settled.
    Keys are ambiguous when, say, `0` and `+0` address the same URI, or when a URI is listed twice.
   */
  lemma OrderIrrelevantIff(uris: seq<string>, qs: seq<Qualifier>, parse: string -> Option<Headers>)
    ensures (forall o, p :: IsOrder(o, PerUrl(qs).Keys) && IsOrder(p, PerUrl(qs).Keys) ==>
                            HeaderOutcome(uris, qs, o, parse) == HeaderOutcome(uris, qs, p, parse))
            <==> Settled(uris, qs)
  {
    if Settled(uris, qs) {
      forall o, p | IsOrder(o, PerUrl(qs).Keys) && IsOrder(p, PerUrl(qs).Keys)
        ensures HeaderOutcome(uris, qs, o, parse) == HeaderOutcome(uris, qs, p, parse)
      {
        SettledOutcomesAgree(uris, qs, o, p, parse);
      }
    } else {
      var o, p := OrdersDiffer(Global(qs, uris), uris, PerUrl(qs));
      OutcomesAgreeIff(uris, qs, o, p, parse);
    }
  }

  function IndexKey(index: string, header: string): string {
    HTTP_HEADER_URL_PREFIX + index + ":" + header
  }

  lemma IndexKeyTarget(index: string, header: string, n: nat)
    requires ':' !in index && ':' !in header
    ensures Target(IndexKey(index, header), n) ==
              match ParseInt64(index)
              case None => None
              case Some(i) => if 0 <= i < n then Some((i, header)) else None
    ensures HasPrefix(IndexKey(index, header), HTTP_HEADER_URL_PREFIX)
    ensures |IndexKey(index, header)| == |HTTP_HEADER_URL_PREFIX| + |index| + 1 + |header|
  {
    assert HTTP_HEADER_URL_PREFIX == "http_header_url" + ":";
    SplitTwice("http_header_url", index, header);
    SplitWithout(header, ':');
  }

  /** An index with a minus sign addresses nothing, except for minus zero. */
  lemma NegativeIndexIsRefused(i: nat, header: string, n: nat)
    requires ':' !in header
    ensures Target(IndexKey("-" + Decimal(i), header), n) == if i == 0 < n then Some((0, header)) else None
    ensures i > 0 ==> !Accepted(map[IndexKey("-" + Decimal(i), header) := ""], n)
  {
    DecimalIsInt64(i);
    SignedDecimal(i);
    IndexKeyTarget("-" + Decimal(i), header, n);
    assert IndexKey("-" + Decimal(i), header) in map[IndexKey("-" + Decimal(i), header) := ""];
  }

  lemma BothZero()
    ensures ParseInt64("0") == ParseInt64("+0") == Some(0)
  {
    assert ParseDigits("0") == Some(0) && "+0"[1..] == "0";
  }

  /** Two keys that differ only in the sign of their index, as in `http_header_url:0:A` and `http_header_url:+0:A`. */
  lemma SignedIndexIsAmbiguous(uri: string, header: string, v: string, w: string)
    requires v != w && ':' !in header
    ensures
      var qs := [Qualifier(IndexKey("0", header), v), Qualifier(IndexKey("+0", header), w)];
      Accepted(PerUrl(qs), 1) && !Unambiguous(PerUrl(qs), [uri])
  {
    var j, k := IndexKey("0", header), IndexKey("+0", header);
    IndexKeyTarget("0", header, 1);
    IndexKeyTarget("+0", header, 1);
    BothZero();
    TwoKeys(j, v, k, w, uri, header);
  }

  lemma TwoKeys(j: string, v: string, k: string, w: string, uri: string, header: string)
    requires j != k && v != w && HasPrefix(j, HTTP_HEADER_URL_PREFIX) && HasPrefix(k, HTTP_HEADER_URL_PREFIX)
    requires Target(j, 1) == Target(k, 1) == Some((0, header))
    ensures Accepted(PerUrl([Qualifier(j, v), Qualifier(k, w)]), 1)
    ensures !Unambiguous(PerUrl([Qualifier(j, v), Qualifier(k, w)]), [uri])
  {
    var qs := [Qualifier(j, v), Qualifier(k, w)];
    assert qs == ([] + [qs[0]]) + [qs[1]];
    AsMapAppend([], qs[0]);
    AsMapAppend([] + [qs[0]], qs[1]);
    assert AsMap(qs) == map[j := v, k := w];
    assert Hits(j, PerUrl(qs), [uri], uri, header) && Hits(k, PerUrl(qs), [uri], uri, header);
  }
}
