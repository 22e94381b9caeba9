/** Generation of a fetch Command from qualifiers. */
module Translator {
  import opened Common
  import opened Sorting
  import opened Qualifiers
  import opened Messages

  /** The closure that QualifiersToCommand returns, with the map it captured. */
  datatype CommandGenerator =
    | GitCommand(qualifiers: map<string, string>)
    | OctetStreamCommand(qualifiers: map<string, string>)

  function QualifiersToCommand(qs: seq<Qualifier>): Result<CommandGenerator> {
    var qualifiers := AsMap(qs);
    if "resource_type" !in qualifiers then Failure(Unknown)
    else if qualifiers["resource_type"] == "application/x-git" then Success(GitCommand(qualifiers))
    else if qualifiers["resource_type"] == "application/octet-stream" then Success(OctetStreamCommand(qualifiers))
    else Failure(Unknown)
  }

  /** A checksum must contain a dash to be taken apart. */
  predicate ChecksumParses(g: CommandGenerator) {
    g.OctetStreamCommand? && "checksum.sri" in g.qualifiers ==> '-' in g.qualifiers["checksum.sri"]
  }

  function ParseChecksum(c: string): (string, string)
    requires '-' in c
  {
    var parts := Split(c, '-');
    (parts[0], parts[1])
  }

  /** The part of a script that an optional qualifier adds. */
  function Part(qualifiers: map<string, string>, name: string, option: string): string {
    if name in qualifiers then option + qualifiers[name] else ""
  }

  const BRANCH_OPTION := " --single-branch --branch "
  const CHECKOUT := " && git -C out checkout "
  const USER_OPTION := " --http-user="
  const PASSWORD_OPTION := " --http-password="
  const DIGEST_OPTION := " && openssl dgst -"
  const COMPARISON := " -binary out | openssl base64 -A | grep "

  function ChecksumPart(qualifiers: map<string, string>): string
    requires "checksum.sri" in qualifiers ==> '-' in qualifiers["checksum.sri"]
  {
    if "checksum.sri" in qualifiers then
      var (protocol, base64) := ParseChecksum(qualifiers["checksum.sri"]);
      DIGEST_OPTION + protocol + COMPARISON + base64
    else ""
  }

  function Script(g: CommandGenerator, url: string): string
    requires ChecksumParses(g)
  {
    match g
    case GitCommand(q) =>
      "git clone " + url + " out" + (Part(q, "vcs.branch", BRANCH_OPTION) + Part(q, "vcs.commit", CHECKOUT))
    case OctetStreamCommand(q) =>
      "wget -O out " + url
      + (Part(q, "auth.basic.username", USER_OPTION)
         + (Part(q, "auth.basic.password", PASSWORD_OPTION) + ChecksumPart(q)))
  }

  function Generate(g: CommandGenerator, url: string): Command
    requires ChecksumParses(g)
  {
    Command(["sh", "-c", Script(g, url)], ["out"], TREE_AND_DIRECTORY, None)
  }

  /** The generator as the function from URIs to Commands that it stands for. */
  function Closure(g: CommandGenerator): string -> Command
    requires ChecksumParses(g)
  {
    url => Generate(g, url)
  }

  /** A script that shows a value right after an option. */
  ghost predicate ShowsAfter(script: string, option: string, value: string) {
    exists before, after :: script == before + (option + value) + after
  }

  lemma ShownBetween(before: string, option: string, value: string, after: string)
    ensures ShowsAfter(before + ((option + value) + after), option, value)
  {
    Regroup(before, option + value, after);
  }

  lemma Regroup(a: string, b: string, c: string)
    ensures a + (b + c) == a + b + c
  {
  }

  /** Just two resource types generate a Command: one clones the URI and the other one downloads it. */
  lemma ResourceTypeDecides(qs: seq<Qualifier>, url: string)
    ensures QualifiersToCommand(qs).Success? <==>
              && "resource_type" in AsMap(qs)
              && AsMap(qs)["resource_type"] in {"application/x-git", "application/octet-stream"}
    ensures var g := QualifiersToCommand(qs);
            g.Success? && AsMap(qs)["resource_type"] == "application/x-git" ==>
              ChecksumParses(g.value) && "git clone " + url + " out" <= Script(g.value, url)
    ensures var g := QualifiersToCommand(qs);
            g.Success? && AsMap(qs)["resource_type"] == "application/octet-stream" ==>
              && (ChecksumParses(g.value) <==> ("checksum.sri" in AsMap(qs) ==> '-' in AsMap(qs)["checksum.sri"]))
              && (ChecksumParses(g.value) ==> "wget -O out " + url <= Script(g.value, url))
  {
  }

  /** The script of a clone shows branch and commit after the option of each. */
  lemma GitOptions(m: map<string, string>, url: string)
    ensures "vcs.branch" in m ==>
              ShowsAfter(Script(GitCommand(m), url), " --single-branch --branch ", m["vcs.branch"])
    ensures "vcs.commit" in m ==>
              ShowsAfter(Script(GitCommand(m), url), " && git -C out checkout ", m["vcs.commit"])
  {
    var start := "git clone " + url + " out";
    var branch, commit := Part(m, "vcs.branch", BRANCH_OPTION), Part(m, "vcs.commit", CHECKOUT);
    if "vcs.branch" in m {
      ShownBetween(start, " --single-branch --branch ", m["vcs.branch"], commit);
    }
    if "vcs.commit" in m {
      Regroup(start, branch, commit);
      ShownBetween(start + branch, " && git -C out checkout ", m["vcs.commit"], "");
      assert commit + "" == commit;
    }
  }

  /** The script of a download shows user and password after the option of each. */
  lemma DownloadOptions(m: map<string, string>, url: string)
    requires ChecksumParses(OctetStreamCommand(m))
    ensures "auth.basic.username" in m ==>
              ShowsAfter(Script(OctetStreamCommand(m), url), " --http-user=", m["auth.basic.username"])
    ensures "auth.basic.password" in m ==>
              ShowsAfter(Script(OctetStreamCommand(m), url), " --http-password=", m["auth.basic.password"])
  {
    var start := "wget -O out " + url;
    var user, password := Part(m, "auth.basic.username", USER_OPTION), Part(m, "auth.basic.password", PASSWORD_OPTION);
    var checksum := ChecksumPart(m);
    if "auth.basic.username" in m {
      ShownBetween(start, " --http-user=", m["auth.basic.username"], password + checksum);
    }
    if "auth.basic.password" in m {
      Regroup(start, user, password + checksum);
      ShownBetween(start + user, " --http-password=", m["auth.basic.password"], checksum);
    }
  }

  /**
    A checksum in the form `<algorithm>-<base64>` selects the digest and is what the script compares with, at its end.
    Of a checksum with more dashes only that much is used.
   */
  lemma ChecksumIsCompared(m: map<string, string>, url: string, name: string, base64: string, more: string)
    requires "checksum.sri" in m && '-' !in name && '-' !in base64
    requires m["checksum.sri"] == name + "-" + base64 || m["checksum.sri"] == name + "-" + base64 + "-" + more
    ensures ChecksumParses(OctetStreamCommand(m))
    ensures var script := Script(OctetStreamCommand(m), url);
            && ShowsAfter(script, " && openssl dgst -", name)
            && exists before :: script == before + (" | openssl base64 -A | grep " + base64)
  {
    if m["checksum.sri"] == name + "-" + base64 {
      SplitAtFirst(name, '-', base64);
    } else {
      assert m["checksum.sri"] == name + "-" + (base64 + "-" + more);
      SplitAtFirst(name, '-', base64 + "-" + more);
      SplitAtFirst(base64, '-', more);
    }
    SplitWithout(base64, '-');
    assert ParseChecksum(m["checksum.sri"]) == (name, base64);
    var user := Part(m, "auth.basic.username", USER_OPTION);
    var password := Part(m, "auth.basic.password", PASSWORD_OPTION);
    assert ChecksumPart(m) == DIGEST_OPTION + name + COMPARISON + base64;
    ComparedAtEnd("wget -O out " + url, user, password, name, base64);
  }

  lemma ComparedAtEnd(start: string, user: string, password: string, name: string, base64: string)
    ensures var script := start + (user + (password + (DIGEST_OPTION + name + COMPARISON + base64)));
            && ShowsAfter(script, " && openssl dgst -", name)
            && exists before :: script == before + (" | openssl base64 -A | grep " + base64)
  {
    var head, digest, end := start + user + password, DIGEST_OPTION + name, " | openssl base64 -A | grep " + base64;
    Regroup(start, user, password + (digest + COMPARISON + base64));
    Regroup(start + user, password, digest + COMPARISON + base64);
    Regroup(digest, COMPARISON, base64);
    ShownBetween(head, " && openssl dgst -", name, COMPARISON + base64);
    PipedToGrep(base64);
    Regroup(digest, " -binary out", end);
    Regroup(head, digest + " -binary out", end);
  }

  lemma PipedToGrep(base64: string)
    ensures COMPARISON + base64 == " -binary out" + (" | openssl base64 -A | grep " + base64)
  {
    Regroup(" -binary out", " | openssl base64 -A | grep ", base64);
  }

  /** The qualifier names that command generation looks up. */
  predicate Consulted(name: string) {
    || name == "resource_type" || name == "vcs.branch" || name == "vcs.commit"
    || name == "auth.basic.username" || name == "auth.basic.password" || name == "checksum.sri"
  }

  ghost predicate SameLookup(m: map<string, string>, n: map<string, string>, name: string) {
    (name in m <==> name in n) && (name in m ==> m[name] == n[name])
  }

  ghost predicate AgreeOnConsulted(m: map<string, string>, n: map<string, string>) {
    forall name :: Consulted(name) ==> SameLookup(m, n, name)
  }

  /** Only the six consulted qualifiers influence the generated Command. */
  lemma GeneratedFromConsulted(qs: seq<Qualifier>, rs: seq<Qualifier>, url: string)
    requires AgreeOnConsulted(AsMap(qs), AsMap(rs))
    ensures QualifiersToCommand(qs).Success? <==> QualifiersToCommand(rs).Success?
    ensures QualifiersToCommand(qs).Success? ==>
              (ChecksumParses(QualifiersToCommand(qs).value) <==> ChecksumParses(QualifiersToCommand(rs).value))
    ensures QualifiersToCommand(qs).Success? && ChecksumParses(QualifiersToCommand(qs).value) ==>
              Generate(QualifiersToCommand(qs).value, url) == Generate(QualifiersToCommand(rs).value, url)
  {
    var m, n := AsMap(qs), AsMap(rs);
    assert SameLookup(m, n, "resource_type");
    assert SameLookup(m, n, "vcs.branch") && SameLookup(m, n, "vcs.commit");
    assert SameLookup(m, n, "auth.basic.username") && SameLookup(m, n, "auth.basic.password");
    assert SameLookup(m, n, "checksum.sri");
  }

  /** No consulted name is volatile. */
  lemma ConsultedAreStable(q: Qualifier)
    requires Consulted(q.name)
    ensures !Volatile(q)
  {
    assert q.name[0] != 'h' && q.name[2] != 'z';
  }

  /** A name with a stable value keeps it when volatile qualifiers are dropped and the rest is sorted. */
  lemma StableValueKept(qs: seq<Qualifier>, rs: seq<Qualifier>, q: Qualifier)
    requires DistinctNames(qs) && rs == SortQualifiers(Stable(qs)) && !Volatile(q)
    ensures DistinctNames(rs)
    ensures (q.name in AsMap(qs) && AsMap(qs)[q.name] == q.value) <==>
        (q.name in AsMap(rs) && AsMap(rs)[q.name] == q.value)
  {
    SortPermutes(QualifierLess, Stable(qs));
    forall p ensures multiset(rs)[p] <= multiset(qs)[p] {
      StableCounts(qs, p);
    }
    DistinctNamesPermutation(qs, rs);
    AsMapDistinct(qs, q.name, q.value);
    AsMapDistinct(rs, q.name, q.value);
    StableCounts(qs, q);
    assert q in rs <==> q in multiset(rs);
    assert q in qs <==> q in multiset(qs);
  }

  /** With distinct names, dropping volatile qualifiers and sorting changes no consulted value. */
  lemma SortedStableAgrees(qs: seq<Qualifier>)
    requires DistinctNames(qs)
    ensures AgreeOnConsulted(AsMap(qs), AsMap(SortQualifiers(Stable(qs))))
  {
    var rs := SortQualifiers(Stable(qs));
    var m, n := AsMap(qs), AsMap(rs);
    forall name | Consulted(name) ensures SameLookup(m, n, name) {
      ConsultedAreStable(Qualifier(name, ""));
      if name in m {
        StableValueKept(qs, rs, Qualifier(name, m[name]));
      }
      if name in n {
        StableValueKept(qs, rs, Qualifier(name, n[name]));
      }
    }
  }

  /** The value that sorting puts last for a name is the greatest of its values. */
  lemma SortedTakesGreatest(qs: seq<Qualifier>, rs: seq<Qualifier>, q: Qualifier)
    requires rs == SortQualifiers(Stable(qs)) && q in qs && !Volatile(q)
    ensures q.name in AsMap(rs) && Qualifier(q.name, AsMap(rs)[q.name]) in qs
    ensures !StringLess(AsMap(rs)[q.name], q.value)
  {
    QualifierOrder();
    SortSorts(QualifierLess, Stable(qs));
    SortPermutes(QualifierLess, Stable(qs));
    StableCounts(qs, q);
    assert q in multiset(qs) && q in multiset(rs);
    var n :| 0 <= n < |rs| && rs[n] == q;
    var i := LastOfName(rs, q.name, n);
    AsMapLookup(rs, q.name);
    StableCounts(qs, rs[i]);
    assert rs[i] in multiset(rs);
    assert rs[i] in multiset(qs);
    assert i == n || !QualifierLess(rs[i], rs[n]);
    StringLessIrreflexive(q.value);
  }

  lemma {:induction false} LastOfName(rs: seq<Qualifier>, name: string, n: nat) returns (i: nat)
    requires n < |rs| && rs[n].name == name
    ensures n <= i < |rs| && rs[i].name == name && forall j :: i < j < |rs| ==> rs[j].name != name
    decreases |rs| - n
  {
    if j :| n < j < |rs| && rs[j].name == name {
      i := LastOfName(rs, name, j);
    } else {
      i := n;
    }
  }

  /**
    With duplicate names, an unsorted list and the sorted list of a cache key agree on a name exactly when the last of
    its values is also the greatest.
   */
  lemma SameValueIffLastIsGreatest(qs: seq<Qualifier>, name: string)
    requires name in AsMap(qs) && !Volatile(Qualifier(name, AsMap(qs)[name]))
    ensures name in AsMap(SortQualifiers(Stable(qs)))
    ensures AsMap(SortQualifiers(Stable(qs)))[name] == AsMap(qs)[name] <==>
              forall value :: Qualifier(name, value) in qs ==> !StringLess(AsMap(qs)[name], value)
  {
    var rs, last := SortQualifiers(Stable(qs)), AsMap(qs)[name];
    AsMapLookup(qs, name);
    var n :| 0 <= n < |qs| && qs[n].name == name;
    var i := LastOfName(qs, name, n);
    assert qs[i] == Qualifier(name, last);
    SortedTakesGreatest(qs, rs, Qualifier(name, last));
    forall value | Qualifier(name, value) in qs ensures !StringLess(AsMap(rs)[name], value) {
      SortedTakesGreatest(qs, rs, Qualifier(name, value));
    }
    StringLessConnected(AsMap(rs)[name], last);
  }

  // ---- Duplicate names ----

  /** No value that is listed for the name exceeds the last one. */
  ghost predicate LastIsGreatest(qs: seq<Qualifier>, name: string) {
    name in AsMap(qs) ==> forall value :: Qualifier(name, value) in qs ==> !StringLess(AsMap(qs)[name], value)
  }

  /**
    Sorting keeps which consulted names there are, and each keeps its value exactly if its last value is its greatest.
   */
  lemma SameLookupIff(qs: seq<Qualifier>, name: string)
    requires Consulted(name)
    ensures name in AsMap(qs) <==> name in AsMap(SortQualifiers(Stable(qs)))
    ensures name in AsMap(qs) ==> Qualifier(name, AsMap(SortQualifiers(Stable(qs)))[name]) in qs
    ensures SameLookup(AsMap(qs), AsMap(SortQualifiers(Stable(qs))), name) <==> LastIsGreatest(qs, name)
  {
    var rs := SortQualifiers(Stable(qs));
    AsMapLookup(qs, name);
    ConsultedAreStable(Qualifier(name, ""));
    if name in AsMap(rs) {
      ListedAfterSorting(qs, name);
    }
    if name in AsMap(qs) {
      var n :| 0 <= n < |qs| && qs[n].name == name;
      SortedTakesGreatest(qs, rs, qs[n]);
      SameValueIffLastIsGreatest(qs, name);
    }
  }

  /** Sorting adds no names. */
  lemma ListedAfterSorting(qs: seq<Qualifier>, name: string)
    requires name in AsMap(SortQualifiers(Stable(qs)))
    ensures name in AsMap(qs)
  {
    var rs := SortQualifiers(Stable(qs));
    AsMapLookup(qs, name);
    AsMapLookup(rs, name);
    var n :| 0 <= n < |rs| && rs[n].name == name;
    SortPermutes(QualifierLess, Stable(qs));
    StableCounts(qs, rs[n]);
    assert rs[n] in multiset(rs);
    assert rs[n] in multiset(qs);
    var i :| 0 <= i < |qs| && qs[i] == rs[n];
  }

  /**
    Both lists agree on all that command generation looks up exactly when each last value is the greatest of its name.
   */
  lemma AgreeIffLastIsGreatest(qs: seq<Qualifier>)
    ensures AgreeOnConsulted(AsMap(qs), AsMap(SortQualifiers(Stable(qs)))) <==>
              forall name :: Consulted(name) ==> LastIsGreatest(qs, name)
  {
    forall name | Consulted(name)
      ensures SameLookup(AsMap(qs), AsMap(SortQualifiers(Stable(qs))), name) <==> LastIsGreatest(qs, name)
    {
      SameLookupIff(qs, name);
    }
  }

  // ---- What a script shows of the values in it ----

  predicate BlankFirst(s: string) {
    s == "" || s[0] == ' '
  }

  lemma CancelPrefix(prefix: string, s: string, t: string)
    ensures prefix + s == prefix + t <==> s == t
  {
    assert (prefix + s)[|prefix|..] == s && (prefix + t)[|prefix|..] == t;
  }

  /** Values without blanks can be told apart from what follows them. */
  lemma {:induction false} CancelToken(a: string, s: string, b: string, t: string)
    requires ' ' !in a && ' ' !in b && BlankFirst(s) && BlankFirst(t)
    ensures a + s == b + t <==> a == b && s == t
  {
    if a != "" && b != "" {
      CancelToken(a[1..], s, b[1..], t);
      assert (a + s)[1..] == a[1..] + s && (b + t)[1..] == b[1..] + t;
      assert a == [a[0]] + a[1..] && b == [b[0]] + b[1..];
      assert a + s == [a[0]] + (a[1..] + s) && b + t == [b[0]] + (b[1..] + t);
      assert (a + s)[0] == a[0] && (b + t)[0] == b[0];
    } else if a == "" && b != "" {
      assert a + s == s && (b + t)[0] == b[0] && b[0] in b;
    } else if a != "" && b == "" {
      assert b + t == t && (a + s)[0] == a[0] && a[0] in a;
    }
  }

  /** The value of the name, if there is one, holds no blank. */
  predicate BlankFree(m: map<string, string>, name: string) {
    name in m ==> ' ' !in m[name]
  }

  /** An option can be told apart from what follows it, also when only one of the maps has it. */
  lemma CancelPart(m: map<string, string>, n: map<string, string>, name: string, option: string, s: string, t: string)
    requires BlankFree(m, name) && BlankFree(n, name) && BlankFirst(s) && BlankFirst(t)
    requires !(option <= s) && !(option <= t)
    ensures Part(m, name, option) + s == Part(n, name, option) + t <==> SameLookup(m, n, name) && s == t
  {
    if name in m && name in n {
      assert Part(m, name, option) + s == option + (m[name] + s);
      assert Part(n, name, option) + t == option + (n[name] + t);
      CancelPrefix(option, m[name] + s, n[name] + t);
      CancelToken(m[name], s, n[name], t);
    } else if name in m {
      assert Part(m, name, option) + s == option + (m[name] + s) && Part(n, name, option) + t == t;
    } else if name in n {
      assert Part(n, name, option) + t == option + (n[name] + t) && Part(m, name, option) + s == s;
    } else {
      assert Part(m, name, option) + s == s && Part(n, name, option) + t == t;
    }
  }

  lemma {:induction false} SplitKeeps(s: string, separator: char, c: char)
    requires c !in s
    ensures forall i :: 0 <= i < |Split(s, separator)| ==> c !in Split(s, separator)[i]
  {
    if s != "" {
      SplitKeeps(s[1..], separator, c);
      assert forall d :: d in s[1..] ==> d in s;
    }
  }

  /** Checksums show in a script by their algorithm and what stands between the first two dashes. */
  ghost predicate SameChecksum(m: map<string, string>, n: map<string, string>) {
    && ("checksum.sri" in m <==> "checksum.sri" in n)
    && ("checksum.sri" in m ==>
          && '-' in m["checksum.sri"] && '-' in n["checksum.sri"]
          && ParseChecksum(m["checksum.sri"]) == ParseChecksum(n["checksum.sri"]))
  }

  lemma ChecksumPartsEqualIff(m: map<string, string>, n: map<string, string>)
    requires BlankFree(m, "checksum.sri") && BlankFree(n, "checksum.sri")
    requires "checksum.sri" in m ==> '-' in m["checksum.sri"]
    requires "checksum.sri" in n ==> '-' in n["checksum.sri"]
    ensures BlankFirst(ChecksumPart(m)) && !(PASSWORD_OPTION <= ChecksumPart(m)) && !(USER_OPTION <= ChecksumPart(m))
    ensures ChecksumPart(m) == ChecksumPart(n) <==> SameChecksum(m, n)
  {
    assert DIGEST_OPTION[1] != PASSWORD_OPTION[1] == USER_OPTION[1];
    if "checksum.sri" in m && "checksum.sri" in n {
      var (p, x) := ParseChecksum(m["checksum.sri"]);
      var (q, y) := ParseChecksum(n["checksum.sri"]);
      SplitKeeps(m["checksum.sri"], '-', ' ');
      SplitKeeps(n["checksum.sri"], '-', ' ');
      CancelTwo(DIGEST_OPTION, COMPARISON, p, x, q, y);
    }
  }

  lemma CancelTwo(first: string, second: string, p: string, x: string, q: string, y: string)
    requires ' ' !in p && ' ' !in q && second != "" && BlankFirst(second)
    ensures first + p + second + x == first + q + second + y <==> p == q && x == y
  {
    assert first + p + second + x == first + (p + (second + x));
    assert first + q + second + y == first + (q + (second + y));
    CancelPrefix(first, p + (second + x), q + (second + y));
    CancelToken(p, second + x, q, second + y);
    CancelPrefix(second, x, y);
  }

  /** The qualifiers that the script of a generator shows have the same values. */
  ghost predicate SameShown(g: CommandGenerator, h: CommandGenerator) {
    var m, n := g.qualifiers, h.qualifiers;
    match g
    case GitCommand(_) => h.GitCommand? && SameLookup(m, n, "vcs.branch") && SameLookup(m, n, "vcs.commit")
    case OctetStreamCommand(_) =>
      && h.OctetStreamCommand?
      && SameLookup(m, n, "auth.basic.username") && SameLookup(m, n, "auth.basic.password") && SameChecksum(m, n)
  }

  /** Two URIs are told apart in scripts if neither holds a blank. */
  predicate Separable(u: string, v: string) {
    u == v || (' ' !in u && ' ' !in v)
  }

  lemma CancelUri(command: string, u: string, s: string, v: string, t: string)
    requires Separable(u, v) && BlankFirst(s) && BlankFirst(t)
    ensures command + u + s == command + v + t <==> u == v && s == t
  {
    assert command + u + s == command + (u + s) && command + v + t == command + (v + t);
    CancelPrefix(command, u + s, v + t);
    if u == v {
      CancelPrefix(u, s, t);
    } else {
      CancelToken(u, s, v, t);
    }
  }

  lemma CancelUriAndMore(command: string, u: string, v: string, more: string, s: string, t: string)
    requires Separable(u, v) && more != "" && BlankFirst(more)
    ensures command + u + more + s == command + v + more + t <==> u == v && s == t
  {
    assert command + u + more + s == command + u + (more + s);
    assert command + v + more + t == command + v + (more + t);
    CancelUri(command, u, more + s, v, more + t);
    CancelPrefix(more, s, t);
  }

  lemma GitScriptsEqualIff(m: map<string, string>, u: string, n: map<string, string>, v: string)
    requires BlankFree(m, "vcs.branch") && BlankFree(m, "vcs.commit")
    requires BlankFree(n, "vcs.branch") && BlankFree(n, "vcs.commit")
    requires Separable(u, v)
    ensures Script(GitCommand(m), u) == Script(GitCommand(n), v) <==>
              u == v && SameLookup(m, n, "vcs.branch") && SameLookup(m, n, "vcs.commit")
  {
    var s, t := Part(m, "vcs.commit", CHECKOUT), Part(n, "vcs.commit", CHECKOUT);
    var x, y := Part(m, "vcs.branch", BRANCH_OPTION) + s, Part(n, "vcs.branch", BRANCH_OPTION) + t;
    assert BRANCH_OPTION[1] != CHECKOUT[1];
    CancelPart(m, n, "vcs.branch", BRANCH_OPTION, s, t);
    CancelPart(m, n, "vcs.commit", CHECKOUT, "", "");
    assert s + "" == s && t + "" == t;
    CancelUriAndMore("git clone ", u, v, " out", x, y);
  }

  lemma OctetStreamScriptsEqualIff(m: map<string, string>, u: string, n: map<string, string>, v: string)
    requires BlankFree(m, "auth.basic.username") && BlankFree(m, "auth.basic.password") && BlankFree(m, "checksum.sri")
    requires BlankFree(n, "auth.basic.username") && BlankFree(n, "auth.basic.password") && BlankFree(n, "checksum.sri")
    requires ChecksumParses(OctetStreamCommand(m)) && ChecksumParses(OctetStreamCommand(n))
    requires Separable(u, v)
    ensures Script(OctetStreamCommand(m), u) == Script(OctetStreamCommand(n), v) <==>
              && u == v && SameLookup(m, n, "auth.basic.username") && SameLookup(m, n, "auth.basic.password")
              && SameChecksum(m, n)
  {
    var c, d := ChecksumPart(m), ChecksumPart(n);
    ChecksumPartsEqualIff(m, n);
    ChecksumPartsEqualIff(n, m);
    var s := Part(m, "auth.basic.password", PASSWORD_OPTION) + c;
    var t := Part(n, "auth.basic.password", PASSWORD_OPTION) + d;
    CancelPart(m, n, "auth.basic.password", PASSWORD_OPTION, c, d);
    NotUserOption(m);
    NotUserOption(n);
    CancelPart(m, n, "auth.basic.username", USER_OPTION, s, t);
    CancelUri("wget -O out ", u, Part(m, "auth.basic.username", USER_OPTION) + s,
              v, Part(n, "auth.basic.username", USER_OPTION) + t);
  }

  lemma NotUserOption(m: map<string, string>)
    requires BlankFree(m, "checksum.sri") && ("checksum.sri" in m ==> '-' in m["checksum.sri"])
    ensures var s := Part(m, "auth.basic.password", PASSWORD_OPTION) + ChecksumPart(m);
            BlankFirst(s) && !(USER_OPTION <= s)
  {
    ChecksumPartsEqualIff(m, m);
    assert USER_OPTION[8] != PASSWORD_OPTION[8];
    if "auth.basic.password" !in m {
      assert Part(m, "auth.basic.password", PASSWORD_OPTION) + ChecksumPart(m) == ChecksumPart(m);
    }
  }

  ghost predicate AllBlankFree(m: map<string, string>) {
    forall name :: Consulted(name) ==> BlankFree(m, name)
  }

  /**
    Among values without blanks, scripts are equal exactly when the URIs are and the values that they show are, be these
    present on both sides or on one.
   */
  lemma ScriptsEqualIff(g: CommandGenerator, u: string, h: CommandGenerator, v: string)
    requires AllBlankFree(g.qualifiers) && AllBlankFree(h.qualifiers) && Separable(u, v)
    requires ChecksumParses(g) && ChecksumParses(h)
    ensures Script(g, u) == Script(h, v) <==> u == v && SameShown(g, h)
  {
    var m, n := g.qualifiers, h.qualifiers;
    if g.GitCommand? && h.GitCommand? {
      GitScriptsEqualIff(m, u, n, v);
    } else if g.OctetStreamCommand? && h.OctetStreamCommand? {
      OctetStreamScriptsEqualIff(m, u, n, v);
    } else {
      assert Script(g, u)[0] != Script(h, v)[0];
    }
  }

  ghost predicate IsGreatest(qs: seq<Qualifier>, name: string, value: string) {
    Qualifier(name, value) in qs && forall other :: Qualifier(name, other) in qs ==> !StringLess(value, other)
  }

  lemma SortedIsGreatest(qs: seq<Qualifier>, name: string, value: string)
    requires Consulted(name) && name in AsMap(qs)
    ensures name in AsMap(SortQualifiers(Stable(qs)))
    ensures IsGreatest(qs, name, value) <==> value == AsMap(SortQualifiers(Stable(qs)))[name]
  {
    var rs := SortQualifiers(Stable(qs));
    SameLookupIff(qs, name);
    ConsultedAreStable(Qualifier(name, ""));
    var greatest := AsMap(rs)[name];
    forall other | Qualifier(name, other) in qs ensures !StringLess(greatest, other) {
      SortedTakesGreatest(qs, rs, Qualifier(name, other));
    }
    StringLessConnected(greatest, value);
  }

  /**
    The last resource type is the greatest, and so is the last value of each other qualifier that the script shows; of a
    checksum, the greatest need only show the same as the last.
   */
  ghost predicate SortingIsHarmless(qs: seq<Qualifier>)
    requires QualifiersToCommand(qs).Success? && ChecksumParses(QualifiersToCommand(qs).value)
  {
    && LastIsGreatest(qs, "resource_type")
    && match QualifiersToCommand(qs).value
       case GitCommand(_) => LastIsGreatest(qs, "vcs.branch") && LastIsGreatest(qs, "vcs.commit")
       case OctetStreamCommand(q) =>
         && LastIsGreatest(qs, "auth.basic.username") && LastIsGreatest(qs, "auth.basic.password")
         && ("checksum.sri" in q ==>
               forall value :: IsGreatest(qs, "checksum.sri", value) ==>
                 '-' in value && ParseChecksum(value) == ParseChecksum(q["checksum.sri"]))
  }

  /**
    Harmless means that the sorted list generates a Command too, by the same generator and from the same shown values.
   */
  lemma HarmlessIff(qs: seq<Qualifier>)
    requires QualifiersToCommand(qs).Success? && ChecksumParses(QualifiersToCommand(qs).value)
    ensures SortingIsHarmless(qs) <==>
              var g, sorted := QualifiersToCommand(qs).value, QualifiersToCommand(SortQualifiers(Stable(qs)));
              sorted.Success? && ChecksumParses(sorted.value) && SameShown(g, sorted.value)
  {
    SameLookupIff(qs, "resource_type");
    match QualifiersToCommand(qs).value
    case GitCommand(_) =>
      SameLookupIff(qs, "vcs.branch");
      SameLookupIff(qs, "vcs.commit");
    case OctetStreamCommand(_) =>
      SameLookupIff(qs, "auth.basic.username");
      SameLookupIff(qs, "auth.basic.password");
      SameChecksumIff(qs);
  }

  /** Both lists show the same of their checksums exactly when the greatest checksum shows the same as the last. */
  lemma SameChecksumIff(qs: seq<Qualifier>)
    requires "checksum.sri" in AsMap(qs) ==> '-' in AsMap(qs)["checksum.sri"]
    ensures SameChecksum(AsMap(qs), AsMap(SortQualifiers(Stable(qs)))) <==>
              ("checksum.sri" in AsMap(qs) ==>
                 forall value :: IsGreatest(qs, "checksum.sri", value) ==>
                   '-' in value && ParseChecksum(value) == ParseChecksum(AsMap(qs)["checksum.sri"]))
  {
    SameLookupIff(qs, "checksum.sri");
    if "checksum.sri" in AsMap(qs) {
      var greatest := AsMap(SortQualifiers(Stable(qs)))["checksum.sri"];
      forall value ensures IsGreatest(qs, "checksum.sri", value) <==> value == greatest {
        SortedIsGreatest(qs, "checksum.sri", value);
      }
    }
  }

  /** With distinct names every value is the last and the greatest of its name. */
  lemma DistinctIsHarmless(qs: seq<Qualifier>)
    requires DistinctNames(qs)
    requires QualifiersToCommand(qs).Success? && ChecksumParses(QualifiersToCommand(qs).value)
    ensures SortingIsHarmless(qs)
  {
    SortedStableAgrees(qs);
    AgreeIffLastIsGreatest(qs);
    if QualifiersToCommand(qs).value.OctetStreamCommand? {
      SameChecksumIff(qs);
      assert SameLookup(AsMap(qs), AsMap(SortQualifiers(Stable(qs))), "checksum.sri");
    }
  }

  /** No value of a consulted qualifier holds a blank. */
  ghost predicate NoBlanks(qs: seq<Qualifier>) {
    forall q :: q in qs && Consulted(q.name) ==> ' ' !in q.value
  }

  lemma NoBlanksInMap(qs: seq<Qualifier>)
    requires NoBlanks(qs)
    ensures AllBlankFree(AsMap(qs))
  {
    forall name | Consulted(name) ensures BlankFree(AsMap(qs), name) {
      AsMapLookup(qs, name);
      if name in AsMap(qs) {
        var n :| 0 <= n < |qs| && qs[n].name == name;
        var i := LastOfName(qs, name, n);
        assert Qualifier(name, AsMap(qs)[name]) == qs[i];
      }
    }
  }

  lemma NoBlanksSorted(qs: seq<Qualifier>)
    requires NoBlanks(qs)
    ensures NoBlanks(SortQualifiers(qs)) && NoBlanks(SortQualifiers(Stable(qs)))
  {
    forall q | q in SortQualifiers(qs) ensures q in qs {
      SortPermutes(QualifierLess, qs);
      assert q in multiset(SortQualifiers(qs));
    }
    forall q | q in SortQualifiers(Stable(qs)) ensures q in qs {
      SortPermutes(QualifierLess, Stable(qs));
      StableCounts(qs, q);
      assert q in multiset(SortQualifiers(Stable(qs)));
      assert q in multiset(qs);
    }
  }

  /** With blanks in the values, different values can give the same script. */
  lemma BlanksCanHideValues(m: map<string, string>, n: map<string, string>, url: string)
    requires "vcs.branch" in m && "vcs.branch" in n && "vcs.commit" in m && "vcs.commit" in n
    requires n["vcs.branch"] == m["vcs.branch"] + CHECKOUT && m["vcs.commit"] == CHECKOUT + n["vcs.commit"]
    ensures !SameLookup(m, n, "vcs.branch") && !SameLookup(m, n, "vcs.commit")
    ensures Script(GitCommand(m), url) == Script(GitCommand(n), url)
  {
    var branch, commit := m["vcs.branch"], n["vcs.commit"];
    assert |m["vcs.branch"]| != |n["vcs.branch"]| && |m["vcs.commit"]| != |n["vcs.commit"]|;
    assert (BRANCH_OPTION + branch) + (CHECKOUT + (CHECKOUT + commit)) ==
           (BRANCH_OPTION + (branch + CHECKOUT)) + (CHECKOUT + commit);
  }
}
