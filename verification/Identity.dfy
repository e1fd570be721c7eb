/**
 The correspondence between a Kubernetes service account username and a SPIFFE ID, as the approver
 checks it, with the URI grammar both sides rely on.
 */
module Identity {
  import opened Base
  import opened X509

  // ---------- Text ----------

  /** Position of the first `c`, or the length. */
  function IndexOf(s: string, c: char): (i: nat)
    ensures i <= |s| && c !in s[..i]
    ensures i < |s| ==> s[i] == c
  {
    if s == "" || s[0] == c then 0 else 1 + IndexOf(s[1..], c)
  }

  lemma {:induction false} IndexIs(s: string, c: char, k: nat)
    requires k <= |s| && (forall i :: 0 <= i < k ==> s[i] != c) && (k < |s| ==> s[k] == c)
    ensures IndexOf(s, c) == k
  {
    if k > 0 {
      IndexIs(s[1..], c, k - 1);
    }
  }

  /** strings.Split on one character. */
  function Split(s: string, c: char): (parts: seq<string>)
    ensures parts != []
    decreases |s|
  {
    var i := IndexOf(s, c);
    if i == |s| then [s] else [s[..i]] + Split(s[i + 1..], c)
  }

  function Join(parts: seq<string>, c: char): string
    requires parts != []
  {
    if |parts| == 1 then parts[0] else parts[0] + [c] + Join(parts[1..], c)
  }

  predicate Free(parts: seq<string>, c: char) {
    forall i :: 0 <= i < |parts| ==> c !in parts[i]
  }

  lemma {:induction false} JoinSplit(s: string, c: char)
    ensures Free(Split(s, c), c) && Join(Split(s, c), c) == s
    decreases |s|
  {
    hide IndexOf;
    var i := IndexOf(s, c);
    if i == |s| {
      assert s[..i] == s;
    } else {
      var rest := Split(s[i + 1..], c);
      JoinSplit(s[i + 1..], c);
      FreeCons(s[..i], rest, c);
      JoinCons(s[..i], rest, c);
      assert s == s[..i] + [c] + s[i + 1..];
    }
  }

  lemma FreeCons(p: string, rest: seq<string>, c: char)
    requires c !in p && Free(rest, c)
    ensures Free([p] + rest, c)
  {
    assert forall k :: 0 < k < 1 + |rest| ==> ([p] + rest)[k] == rest[k - 1];
  }

  lemma JoinCons(p: string, rest: seq<string>, c: char)
    requires rest != []
    ensures Join([p] + rest, c) == p + [c] + Join(rest, c)
  {
    assert ([p] + rest)[1..] == rest;
  }

  lemma {:induction false} SplitJoin(parts: seq<string>, c: char)
    requires parts != [] && Free(parts, c)
    ensures Split(Join(parts, c), c) == parts
    decreases |parts|
  {
    hide IndexOf;
    var s := Join(parts, c);
    var p := parts[0];
    assert c !in p;
    if |parts| == 1 {
      IndexIs(s, c, |s|);
    } else {
      var tail := Join(parts[1..], c);
      assert s[|p|] == c && s[..|p|] == p && s[|p| + 1..] == tail;
      assert forall k :: 0 <= k < |p| ==> s[k] == s[..|p|][k];
      IndexIs(s, c, |p|);
      SplitJoin(parts[1..], c);
      assert parts == [p] + parts[1..];
    }
  }

  // ---------- URIs ----------

  predicate Alphanumeric(c: char) {
    'a' <= c <= 'z' || 'A' <= c <= 'Z' || '0' <= c <= '9'
  }

  predicate Hex(c: char) {
    '0' <= c <= '9' || 'a' <= c <= 'f' || 'A' <= c <= 'F'
  }

  predicate Digit(c: char) {
    '0' <= c <= '9'
  }

  /** No control characters. */
  predicate Printable(s: string) {
    forall i :: 0 <= i < |s| ==> ' ' <= s[i] && s[i] != 127 as char
  }

  /** Every percent sign starts an escape. */
  predicate Escaped(s: string) {
    forall i :: 0 <= i < |s| && s[i] == '%' ==> i + 2 < |s| && Hex(s[i + 1]) && Hex(s[i + 2])
  }

  /** In a host, only a percent sign and octets above 127 can be escaped. */
  predicate HostEscaped(s: string) {
    Escaped(s) && forall i :: 0 <= i < |s| && s[i] == '%' ==> !('0' <= s[i + 1] <= '7') || s[i..i + 3] == "%25"
  }

  predicate HostChar(c: char) {
    Alphanumeric(c) || c >= 128 as char || c in "-_.~!$&'()*+,;=:[]<>\"%@"
  }

  /** What follows the last colon of a host is a port. */
  predicate PortText(s: string) {
    forall i :: 0 <= i < |s| && s[i] == ':' && ':' !in s[i + 1..] ==>
      forall k :: i < k < |s| ==> Digit(s[k])
  }

  /** User information and IPv6 literals are not told apart from other text. */
  predicate HostText(s: string) {
    (forall i :: 0 <= i < |s| ==> HostChar(s[i])) && HostEscaped(s) && PortText(s)
  }

  predicate PathText(s: string) {
    Printable(s) && Escaped(s)
  }

  /** A query is not looked into, and a fragment may contain anything but a broken escape. */
  predicate TailText(s: string) {
    var i := IndexOf(s, '#');
    Printable(s[..i]) && Escaped(s[i..])
  }

  /** Position of the first character that is one of `stops`, or the length. */
  function Until(s: string, stops: string): (i: nat)
    ensures i <= |s| && forall k :: 0 <= k < i ==> s[k] !in stops
    ensures i < |s| ==> s[i] in stops
  {
    if s == "" || s[0] in stops then 0 else 1 + Until(s[1..], stops)
  }

  lemma {:induction false} UntilIs(s: string, stops: string, n: nat)
    requires n <= |s| && (forall i :: 0 <= i < n ==> s[i] !in stops) && (n < |s| ==> s[n] in stops)
    ensures Until(s, stops) == n
  {
    if n > 0 {
      UntilIs(s[1..], stops, n - 1);
    }
  }

  /** The `scheme://host/path?query#fragment` part of url.Parse; None is its error. */
  function ParseUri(s: string): (r: Option<Uri>) {
    var i := IndexOf(s, ':');
    if i + 3 > |s| || s[i..i + 3] != "://" then None
    else ParseHierarchy(s[..i], s[i + 3..])
  }

  /** The part after the two slashes. */
  function ParseHierarchy(scheme: string, rest: string): Option<Uri> {
    var j := Until(rest, "/?#");
    if HostText(rest[..j]) then ParseRest(scheme, rest[..j], rest[j..]) else None
  }

  /** The part after the host. */
  function ParseRest(scheme: string, host: string, rest: string): Option<Uri> {
    var k := Until(rest, "?#");
    if PathText(rest[..k]) && TailText(rest[k..]) then Some(Uri(scheme, host, rest[..k], rest[k..])) else None
  }

  lemma RestPrints(scheme: string, host: string, rest: string)
    requires ParseRest(scheme, host, rest).Some?
    ensures ParseRest(scheme, host, rest).value.ToString() == (scheme + "://") + (host + rest)
  {
    hide Until, PathText, TailText;
    var k := Until(rest, "?#");
    assert rest == rest[..k] + rest[k..];
    assert scheme + "://" + host + rest[..k] + rest[k..] == (scheme + "://") + (host + (rest[..k] + rest[k..]));
  }

  /** A parsed URI prints back as the text it came from. */
  lemma ParseUriPrints(s: string)
    requires ParseUri(s).Some?
    ensures ParseUri(s).value.ToString() == s
  {
    hide IndexOf, Until, HostText, ParseRest;
    var i := IndexOf(s, ':');
    var rest := s[i + 3..];
    var j := Until(rest, "/?#");
    RestPrints(s[..i], rest[..j], rest[j..]);
    JoinThree(s, i);
    assert rest[..j] + rest[j..] == rest;
  }

  lemma JoinThree(s: string, i: nat)
    requires i + 3 <= |s|
    ensures s == (s[..i] + s[i..i + 3]) + s[i + 3..]
  {
  }

  function SpiffePath(namespace: string, account: string): string {
    "/ns/" + namespace + "/sa/" + account
  }

  function SpiffeId(trustDomain: string, namespace: string, account: string): string {
    "spiffe://" + trustDomain + SpiffePath(namespace, account)
  }

  function Username(namespace: string, account: string): string {
    "system" + ":" + "serviceaccount" + ":" + namespace + ":" + account
  }

  /** The part of the trust domain that ends up as the host. */
  function HostPart(trustDomain: string): string {
    trustDomain[..Until(trustDomain, "/?#")]
  }

  /** What follows the host in the account's ID. */
  function AfterHost(trustDomain: string, namespace: string, account: string): string {
    trustDomain[Until(trustDomain, "/?#")..] + SpiffePath(namespace, account)
  }

  /** Path, query and fragment that url.Parse does not refuse. */
  predicate RestText(s: string) {
    var k := Until(s, "?#");
    PathText(s[..k]) && TailText(s[k..])
  }

  lemma HostEnds(trustDomain: string, namespace: string, account: string)
    ensures var rest := trustDomain + SpiffePath(namespace, account);
      var j := Until(rest, "/?#");
      j == |HostPart(trustDomain)| && rest[..j] == HostPart(trustDomain)
      && rest[j..] == AfterHost(trustDomain, namespace, account)
  {
    hide Until;
    var path := SpiffePath(namespace, account);
    var rest, n := trustDomain + path, Until(trustDomain, "/?#");
    assert path[0] == '/';
    assert forall k :: 0 <= k < |trustDomain| ==> rest[k] == trustDomain[k];
    UntilIs(rest, "/?#", n);
    assert rest[n..] == trustDomain[n..] + path;
  }

  /** The account's ID, taken apart at its first colon. */
  lemma IdHierarchy(trustDomain: string, namespace: string, account: string)
    ensures ParseUri(SpiffeId(trustDomain, namespace, account))
         == ParseHierarchy("spiffe", trustDomain + SpiffePath(namespace, account))
  {
    hide IndexOf, ParseHierarchy;
    var rest := trustDomain + SpiffePath(namespace, account);
    var s := "spiffe://" + rest;
    assert SpiffeId(trustDomain, namespace, account) == s;
    SchemeEnds(rest);
    assert s[..6] == "spiffe" && s[9..] == rest;
  }

  /**
   url.Parse accepts an ID exactly when the trust domain, up to its first slash, question mark or hash, is a
   host, and what follows has no control character before a hash and no broken escape outside a query.
   */
  lemma IdParsesExactly(trustDomain: string, namespace: string, account: string)
    ensures ParseUri(SpiffeId(trustDomain, namespace, account)).Some?
       <==> HostText(HostPart(trustDomain)) && RestText(AfterHost(trustDomain, namespace, account))
  {
    hide Until, HostText, PathText, TailText, SpiffeId, ParseUri, HostPart, AfterHost;
    IdHierarchy(trustDomain, namespace, account);
    HostEnds(trustDomain, namespace, account);
  }

  predicate Without(s: string, stops: string) {
    forall i :: 0 <= i < |s| ==> s[i] !in stops
  }

  /** An accepted ID parses into scheme, trust domain and path exactly when no name breaks it up elsewhere. */
  lemma ParseSpiffeId(trustDomain: string, namespace: string, account: string)
    requires ParseUri(SpiffeId(trustDomain, namespace, account)).Some?
    ensures ParseUri(SpiffeId(trustDomain, namespace, account))
            == Some(Uri("spiffe", trustDomain, SpiffePath(namespace, account), ""))
       <==> Without(trustDomain, "/?#") && Without(namespace, "?#") && Without(account, "?#")
  {
    hide Until, HostText, PathText, TailText, SpiffeId, SpiffePath, ParseUri, Without;
    IdHierarchy(trustDomain, namespace, account);
    HostEnds(trustDomain, namespace, account);
    var path := SpiffePath(namespace, account);
    PathWithout(namespace, account);
    UncutExactly(trustDomain, "/?#");
    UncutExactly(path, "?#");
    if Until(trustDomain, "/?#") == |trustDomain| {
      assert AfterHost(trustDomain, namespace, account) == path;
      var k := Until(path, "?#");
      assert HostPart(trustDomain) == trustDomain && (path[k..] == "" <==> k == |path|);
    }
  }

  /** Nothing is cut off a text exactly when it has no stop. */
  lemma UncutExactly(s: string, stops: string)
    ensures Without(s, stops) <==> Until(s, stops) == |s|
    ensures s[..Until(s, stops)] == s <==> Until(s, stops) == |s|
  {
    hide Until;
    if Without(s, stops) { UntilIs(s, stops, |s|); }
  }

  lemma PathWithout(namespace: string, account: string)
    ensures Without(SpiffePath(namespace, account), "?#") <==> Without(namespace, "?#") && Without(account, "?#")
  {
    var s := SpiffePath(namespace, account);
    var n := |namespace|;
    assert forall i :: 0 <= i < n ==> s[4 + i] == namespace[i];
    assert forall i :: 0 <= i < |account| ==> s[8 + n + i] == account[i];
    assert s[..4] == "/ns/" && s[4 + n..8 + n] == "/sa/";
    assert forall i :: 0 <= i < 4 ==> s[i] == s[..4][i];
    assert forall i :: 4 + n <= i < 8 + n ==> s[i] == s[4 + n..8 + n][i - 4 - n];
  }

  lemma SchemeEnds(tail: string)
    ensures IndexOf("spiffe://" + tail, ':') == 6 && ("spiffe://" + tail)[6..9] == "://"
  {
    hide IndexOf;
    var s := "spiffe://" + tail;
    assert forall k :: 0 <= k < 6 ==> s[k] == "spiffe"[k];
    IndexIs(s, ':', 6);
  }

  /** The ID, segment by segment. */
  lemma IdSegments(trustDomain: string, namespace: string, account: string)
    requires '/' !in trustDomain && '/' !in namespace && '/' !in account
    ensures Split(SpiffeId(trustDomain, namespace, account), '/')
         == ["spiffe:", "", trustDomain, "ns", namespace, "sa", account]
  {
    hide Split;
    var parts := ["spiffe:", "", trustDomain, "ns", namespace, "sa", account];
    var p1, p2, p3, p4, p5, p6 := parts[1..], parts[2..], parts[3..], parts[4..], parts[5..], parts[6..];
    assert p6 == [account] && p5[1..] == p6 && p4[1..] == p5 && p3[1..] == p4 && p2[1..] == p3 && p1[1..] == p2;
    assert Join(p5, '/') == "sa" + "/" + account;
    assert Join(p4, '/') == namespace + "/" + Join(p5, '/');
    assert Join(p3, '/') == "ns" + "/" + Join(p4, '/');
    assert Join(p2, '/') == trustDomain + "/" + Join(p3, '/');
    assert Join(p1, '/') == "" + "/" + Join(p2, '/');
    assert Join(parts, '/') == "spiffe:" + "/" + Join(p1, '/');
    assert Join(parts, '/') == SpiffeId(trustDomain, namespace, account);
    SplitJoin(parts, '/');
  }

  /** No dot at either end, and no two in a row. */
  predicate DotsSeparate(host: string) {
    && host != "" && host[0] != '.' && host[|host| - 1] != '.'
    && forall i :: 0 < i < |host| && host[i - 1] == '.' ==> host[i] != '.'
  }

  predicate Visible(s: string) {
    forall i :: 0 <= i < |s| ==> '!' <= s[i] <= '~'
  }

  predicate Labels(labels: seq<string>) {
    forall i :: 0 <= i < |labels| ==> labels[i] != "" && Visible(labels[i])
  }

  /** The request parser's rule for a URI's host: no empty label and visible characters only. */
  predicate ValidDomain(host: string) {
    host == "" || Labels(Split(host, '.'))
  }

  lemma LabelsCons(first: string, rest: seq<string>)
    ensures Labels([first] + rest) <==> first != "" && Visible(first) && Labels(rest)
  {
    var all := [first] + rest;
    assert all[0] == first && forall i :: 0 <= i < |rest| ==> all[i + 1] == rest[i];
    assert forall i :: 0 < i < |all| ==> all[i] == rest[i - 1];
  }

  /** A dot, what precedes it and what follows it. */
  lemma DottedExactly(s: string, i: nat)
    requires i < |s| && s[i] == '.' && '.' !in s[..i]
    ensures DotsSeparate(s) <==> i > 0 && DotsSeparate(s[i + 1..])
    ensures Visible(s) <==> Visible(s[..i]) && Visible(s[i + 1..])
  {
    var rest := s[i + 1..];
    assert forall k :: 0 <= k < i ==> s[k] == s[..i][k];
    assert forall k :: 0 <= k < |rest| ==> rest[k] == s[i + 1 + k];
    assert forall k :: i < k < |s| ==> s[k] == rest[k - i - 1];
    if DotsSeparate(s) {
      assert s[i + 1] != '.';
      forall k | 0 < k < |rest| && rest[k - 1] == '.' ensures rest[k] != '.' {
        assert s[i + k] == '.' ==> s[i + 1 + k] != '.';
      }
    }
  }

  lemma {:induction false} SplitLabels(s: string)
    ensures Labels(Split(s, '.')) <==> DotsSeparate(s) && Visible(s)
    decreases |s|
  {
    hide IndexOf, DotsSeparate, Visible, Labels;
    var i := IndexOf(s, '.');
    if i == |s| {
      LabelsCons(s, []);
      assert [s] + [] == [s] && s[..i] == s && Labels([]) by { NoLabels(); }
      UndottedExactly(s);
    } else {
      LabelsCons(s[..i], Split(s[i + 1..], '.'));
      SplitLabels(s[i + 1..]);
      DottedExactly(s, i);
    }
  }

  lemma NoLabels()
    ensures Labels([])
  {
  }

  lemma UndottedExactly(s: string)
    requires '.' !in s
    ensures DotsSeparate(s) <==> s != ""
  {
  }

  /** A host is refused exactly for an invisible character, a dot at an end or two dots in a row. */
  lemma ValidDomainExactly(host: string)
    ensures ValidDomain(host) <==> host == "" || (DotsSeparate(host) && Visible(host))
  {
    SplitLabels(host);
  }

  // ---------- The approver's checks ----------

  datatype IdentityError = NotServiceAccount | NotOneUri(count: nat) | NotSpiffe(scheme: string)
                         | WrongId(got: string) | WrongTrustDomain(host: string) | NotDriver(username: string)

  /** validateIdentity. */
  function ValidateIdentity(trustDomain: string, uris: seq<Uri>, username: string): Outcome<IdentityError> {
    var split := Split(username, ':');
    if |split| != 4 || split[0] != "system" || split[1] != "serviceaccount" then Fail(NotServiceAccount)
    else if |uris| != 1 then Fail(NotOneUri(|uris|))
    else if uris[0].scheme != "spiffe" then Fail(NotSpiffe(uris[0].scheme))
    else if uris[0].ToString() != SpiffeId(trustDomain, split[2], split[3]) then Fail(WrongId(uris[0].ToString()))
    else Pass
  }

  /** validateDriverServiceAccount. */
  function ValidateDriverAccount(trustDomain: string, driver: string, uris: seq<Uri>, username: string)
    : Outcome<IdentityError>
  {
    if |uris| != 1 then Fail(NotOneUri(|uris|))
    else if uris[0].scheme != "spiffe" then Fail(NotSpiffe(uris[0].scheme))
    else if uris[0].host != trustDomain then Fail(WrongTrustDomain(uris[0].host))
    else if username != driver then Fail(NotDriver(username))
    else Pass
  }

  /** `username` is that of the account, and the request holds the account's ID and nothing else. */
  ghost predicate Corresponds(trustDomain: string, uris: seq<Uri>, username: string,
                              namespace: string, account: string)
  {
    && ':' !in namespace && ':' !in account
    && username == Username(namespace, account)
    && |uris| == 1 && uris[0].scheme == "spiffe"
    && uris[0].ToString() == SpiffeId(trustDomain, namespace, account)
  }

  lemma JoinFour(a: string, b: string, d: string, e: string, c: char)
    ensures Join([a, b, d, e], c) == a + [c] + b + [c] + d + [c] + e
  {
    var parts := [a, b, d, e];
    assert parts[1..] == [b, d, e] && [b, d, e][1..] == [d, e] && [d, e][1..] == [e];
    assert Join([d, e], c) == d + [c] + e;
    assert Join([b, d, e], c) == b + [c] + Join([d, e], c);
    assert Join(parts, c) == a + [c] + Join([b, d, e], c);
  }

  lemma UsernameSplits(username: string, namespace: string, account: string)
    ensures Split(username, ':') == ["system", "serviceaccount", namespace, account]
       <==> ':' !in namespace && ':' !in account && username == Username(namespace, account)
  {
    hide Split, Join;
    var parts := ["system", "serviceaccount", namespace, account];
    JoinFour("system", "serviceaccount", namespace, account, ':');
    JoinSplit(username, ':');
    if Split(username, ':') == parts {
      assert parts[2] == namespace && parts[3] == account;
    }
    if ':' !in namespace && ':' !in account {
      SplitJoin(parts, ':');
    }
  }

  /** Default mode accepts exactly the account's username together with the account's ID. */
  lemma IdentityExact(trustDomain: string, uris: seq<Uri>, username: string)
    ensures ValidateIdentity(trustDomain, uris, username).Pass?
       <==> exists namespace, account :: Corresponds(trustDomain, uris, username, namespace, account)
  {
    hide Split, Username, SpiffeId;
    var split := Split(username, ':');
    if ValidateIdentity(trustDomain, uris, username).Pass? {
      assert split == ["system", "serviceaccount", split[2], split[3]];
      UsernameSplits(username, split[2], split[3]);
      assert Corresponds(trustDomain, uris, username, split[2], split[3]);
    }
    if namespace, account :| Corresponds(trustDomain, uris, username, namespace, account) {
      UsernameSplits(username, namespace, account);
    }
  }

  // ---------- One username per ID ----------

  /** The separator between namespace and account starts at position i. */
  predicate SeparatorAt(s: string, i: int) {
    0 <= i && i + 4 <= |s| && s[i..i + 4] == "/sa/"
  }

  /** No other account has the same ID. */
  ghost predicate SoleOwner(trustDomain: string, namespace: string, account: string) {
    forall ns: string, sa: string ::
      ':' !in ns && ':' !in sa && SpiffeId(trustDomain, ns, sa) == SpiffeId(trustDomain, namespace, account)
      ==> ns == namespace && sa == account
  }

  lemma SameIdSameTail(trustDomain: string, ns: string, sa: string, namespace: string, account: string)
    ensures SpiffeId(trustDomain, ns, sa) == SpiffeId(trustDomain, namespace, account)
       <==> ns + "/sa/" + sa == namespace + "/sa/" + account
  {
    var k := |"spiffe://" + trustDomain + "/ns/"|;
    var a, b := SpiffeId(trustDomain, ns, sa), SpiffeId(trustDomain, namespace, account);
    var prefix := "spiffe://" + trustDomain + "/ns/";
    assert a == prefix + (ns + "/sa/" + sa) && b == prefix + (namespace + "/sa/" + account);
    assert a[k..] == ns + "/sa/" + sa && b[k..] == namespace + "/sa/" + account;
  }

  lemma OtherSeparatorOtherOwner(trustDomain: string, namespace: string, account: string, i: int)
    requires ':' !in namespace && ':' !in account
    requires SeparatorAt(namespace + "/sa/" + account, i) && i != |namespace|
    ensures !SoleOwner(trustDomain, namespace, account)
  {
    hide SpiffeId;
    var s := namespace + "/sa/" + account;
    var ns, sa := s[..i], s[i + 4..];
    assert ns + s[i..i + 4] == s[..i + 4];
    assert s == ns + "/sa/" + sa;
    assert ':' !in s;
    SameIdSameTail(trustDomain, ns, sa, namespace, account);
  }

  lemma SameTailSameAccount(ns: string, sa: string, namespace: string, account: string)
    requires ns + "/sa/" + sa == namespace + "/sa/" + account
    requires forall i :: SeparatorAt(namespace + "/sa/" + account, i) ==> i == |namespace|
    ensures ns == namespace && sa == account
  {
    var s, t := namespace + "/sa/" + account, ns + "/sa/" + sa;
    assert t[|ns|..|ns| + 4] == "/sa/";
    assert SeparatorAt(s, |ns|);
    assert ns == t[..|ns|] && namespace == s[..|namespace|];
    assert sa == t[|ns| + 4..] && account == s[|namespace| + 4..];
  }

  /** An account is the only one with its ID exactly when the separator occurs once in the ID's tail. */
  lemma SoleOwnerExact(trustDomain: string, namespace: string, account: string)
    requires ':' !in namespace && ':' !in account
    ensures SoleOwner(trustDomain, namespace, account)
       <==> forall i :: SeparatorAt(namespace + "/sa/" + account, i) ==> i == |namespace|
  {
    hide SpiffeId;
    if i :| SeparatorAt(namespace + "/sa/" + account, i) && i != |namespace| {
      OtherSeparatorOtherOwner(trustDomain, namespace, account, i);
    } else {
      forall ns: string, sa: string |
        ':' !in ns && ':' !in sa && SpiffeId(trustDomain, ns, sa) == SpiffeId(trustDomain, namespace, account)
        ensures ns == namespace && sa == account
      {
        SameIdSameTail(trustDomain, ns, sa, namespace, account);
        SameTailSameAccount(ns, sa, namespace, account);
      }
    }
  }

  lemma SlashlessOneSeparator(namespace: string, account: string)
    requires '/' !in namespace && '/' !in account
    ensures forall i :: SeparatorAt(namespace + "/sa/" + account, i) ==> i == |namespace|
  {
    var s := namespace + "/sa/" + account;
    forall i | SeparatorAt(s, i) ensures i == |namespace| {
      assert s[i] == s[i..i + 4][0] == '/' && s[i + 3] == s[i..i + 4][3] == '/';
      assert forall k :: 0 <= k < |namespace| ==> s[k] == namespace[k];
      assert forall k :: |namespace| + 4 <= k < |s| ==> s[k] == account[k - |namespace| - 4];
      assert s[|namespace| + 1] == 's' && s[|namespace| + 2] == 'a';
    }
  }

  /** Without slashes in the names, an ID is accepted for one username only. */
  lemma OneUsernamePerId(trustDomain: string, uris: seq<Uri>, ns: string, sa: string,
                         namespace: string, account: string)
    requires ValidateIdentity(trustDomain, uris, Username(ns, sa)).Pass?
    requires ValidateIdentity(trustDomain, uris, Username(namespace, account)).Pass?
    requires ':' !in ns && ':' !in sa && ':' !in namespace && ':' !in account
    requires '/' !in namespace && '/' !in account
    ensures ns == namespace && sa == account
  {
    hide Split, Username, SpiffeId;
    UsernameSplits(Username(ns, sa), ns, sa);
    UsernameSplits(Username(namespace, account), namespace, account);
    SlashlessOneSeparator(namespace, account);
    SoleOwnerExact(trustDomain, namespace, account);
  }

  /** With a slash in the names, two usernames are accepted for one ID. */
  lemma SlashesCollide(trustDomain: string, ns: string, middle: string, sa: string)
    requires ':' !in ns && ':' !in middle && ':' !in sa
    ensures var uris := [Uri("spiffe", trustDomain, SpiffePath(ns, middle + "/sa/" + sa), "")];
      && ValidateIdentity(trustDomain, uris, Username(ns, middle + "/sa/" + sa)).Pass?
      && ValidateIdentity(trustDomain, uris, Username(ns + "/sa/" + middle, sa)).Pass?
  {
    hide Split, Username;
    UsernameSplits(Username(ns, middle + "/sa/" + sa), ns, middle + "/sa/" + sa);
    UsernameSplits(Username(ns + "/sa/" + middle, sa), ns + "/sa/" + middle, sa);
    assert SpiffePath(ns, middle + "/sa/" + sa) == SpiffePath(ns + "/sa/" + middle, sa);
  }
}
