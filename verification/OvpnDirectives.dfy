/** Which single OpenVPN directive line the helper lets through. */
module OvpnDirectives {
  import opened Text

  // --- The tables ---

  function ConnectionDirectives(): set<string>
  {
    {"client", "proto", "port", "remote", "remote-random", "remote-random-hostname", "resolv-retry", "nobind",
     "float", "connect-retry", "connect-retry-max", "connect-timeout", "server-poll-timeout",
     "explicit-exit-notify", "local", "proto-force", "socket-flags", "compat-mode"}
  }

  function CryptoDirectives(): set<string>
  {
    {"cipher", "data-ciphers", "data-ciphers-fallback", "ncp-ciphers", "auth", "key-direction", "remote-cert-tls",
     "ns-cert-type", "verify-x509-name", "tls-version-min", "tls-version-max", "tls-cipher", "tls-ciphersuites",
     "tls-groups", "tls-timeout", "tls-client", "single-session", "auth-nocache", "tran-window", "reneg-sec",
     "hand-window", "auth-user-pass", "auth-retry", "auth-token", "auth-token-user", "static-challenge"}
  }

  function NetworkDirectives(): set<string>
  {
    {"route", "redirect-gateway", "route-nopull", "pull", "pull-filter", "dhcp-option", "dns", "allow-pull-fqdn",
     "topology", "ifconfig", "allow-recursive-routing", "client-nat", "persist-key", "persist-tun",
     "persist-local-ip", "persist-remote-ip", "tun-mtu", "fragment", "mssfix", "mtu-disc", "link-mtu", "sndbuf",
     "rcvbuf", "keepalive", "ping", "ping-restart", "ping-exit", "fast-io", "mlock", "inactive"}
  }

  function OtherDirectives(): set<string>
  {
    {"comp-lzo", "compress", "comp-noadapt", "allow-compression", "mute", "mute-replay-warnings",
     "ignore-unknown-option", "echo", "machine-readable-output", "push-peer-info", "udp-stuffing",
     "tcp-split-reset", "i1", "i2", "i3", "i4", "i5"}
  }

  predicate IsAllowedName(name: string)
  {
    || name in ConnectionDirectives()
    || name in CryptoDirectives()
    || name in NetworkDirectives()
    || name in OtherDirectives()
  }

  predicate IsBareOnly(name: string) { name == "auth-user-pass" }

  lemma AllowedNameStartsWithLetter(name: string)
    requires IsAllowedName(name)
    ensures |name| >= 2 && 'a' <= name[0] <= 'z'
  {
    hide ConnectionDirectives, CryptoDirectives, NetworkDirectives, OtherDirectives;
    if name in ConnectionDirectives() || name in CryptoDirectives() {
      FirstTables(name);
    } else {
      LastTables(name);
    }
  }

  lemma FirstTables(name: string)
    requires name in ConnectionDirectives() || name in CryptoDirectives()
    ensures |name| >= 2 && 'a' <= name[0] <= 'z'
  {
  }

  lemma LastTables(name: string)
    requires name in NetworkDirectives() || name in OtherDirectives()
    ensures |name| >= 2 && 'a' <= name[0] <= 'z'
  {
  }

  /** What the platform's address validator and the port parser accept; both are outside this model. */
  datatype Validators = Validators(validIp: string -> bool, validPort: string -> bool)

  // --- Splitting a directive line ---

  predicate NotNameEnd(c: char) { !IsTrimChar(c) }

  /** Where the directive name starts: after blanks and an optional "--". */
  function NameStart(line: string): (i: nat)
    ensures i <= |line|
  {
    var i := SkipWhile(IsBlank, line, 0);
    if i + 1 < |line| && line[i] == '-' && line[i + 1] == '-' then i + 2 else i
  }

  function NameEnd(line: string): (i: nat)
    ensures NameStart(line) <= i <= |line|
  {
    SkipWhile(NotNameEnd, line, NameStart(line))
  }

  function DirectiveName(line: string): string
  {
    Lower(line[NameStart(line)..NameEnd(line)])
  }

  predicate HasArgument(line: string)
  {
    var i := SkipWhile(IsBlank, line, NameEnd(line));
    i < |line| && line[i] != '#' && line[i] != ';' && line[i] != '\n' && line[i] != '\r'
  }

  /** The white-space separated words of a line up to a word that opens a comment. */
  function Words(line: string): seq<string>
    decreases |line|
  {
    var a := SkipWhile(IsSpace, line, 0);
    if a == |line| || line[a] == '#' || line[a] == ';' then []
    else
      var b := SkipWhile(NotSpace, line, a);
      [line[a..b]] + Words(line[b..])
  }

  predicate IsQuoteOrBackslash(c: char) { c == '"' || c == '\'' || c == '\\' }

  predicate AnyQuoted(words: seq<string>)
  {
    exists w, c :: w in words && c in w && IsQuoteOrBackslash(c)
  }

  method ExtractDirectiveName(line: string) returns (name: string)
    ensures name == DirectiveName(line)
  {
    hide SkipWhile;
    var start := SkipLoop(IsBlank, line, 0);
    if start + 1 < |line| && line[start] == '-' && line[start + 1] == '-' {
      start := start + 2;
    }
    var end := SkipLoop(NotNameEnd, line, start);
    name := Lower(line[start..end]);
  }

  method HasNonCommentArgument(line: string) returns (r: bool)
    ensures r == HasArgument(line)
  {
    hide SkipWhile;
    var pos := SkipLoop(IsBlank, line, 0);
    if pos + 1 < |line| && line[pos] == '-' && line[pos + 1] == '-' {
      pos := pos + 2;
    }
    pos := SkipLoop(NotNameEnd, line, pos);
    pos := SkipLoop(IsBlank, line, pos);
    r := !(pos >= |line| || line[pos] == '#' || line[pos] == ';' || line[pos] == '\n' || line[pos] == '\r');
  }

  lemma WordsUnfold(s: string)
    ensures var a := SkipWhile(IsSpace, s, 0);
      Words(s) ==
        if a == |s| || s[a] == '#' || s[a] == ';' then []
        else var b := SkipWhile(NotSpace, s, a); [s[a..b]] + Words(s[b..])
  {
  }

  /** Words of a suffix, stated on positions of the whole line. */
  lemma {:induction false} WordsFrom(line: string, pos: nat)
    requires pos <= |line|
    ensures var a := SkipWhile(IsSpace, line, pos);
      Words(line[pos..]) ==
        if a == |line| || line[a] == '#' || line[a] == ';' then []
        else var b := SkipWhile(NotSpace, line, a); [line[a..b]] + Words(line[b..])
  {
    hide SkipWhile, Words;
    var s := line[pos..];
    WordsUnfold(s);
    var a := SkipWhile(IsSpace, line, pos);
    SkipShift(IsSpace, line, pos);
    if a < |line| && line[a] != '#' && line[a] != ';' {
      var b := SkipWhile(NotSpace, line, a);
      SkipUnique(NotSpace, s, a - pos, b - pos);
      assert s[a - pos..b - pos] == line[a..b] && s[b - pos..] == line[b..];
    }
  }

  method SplitDirectiveWords(line: string) returns (words: seq<string>)
    ensures words == Words(line)
  {
    hide SkipWhile, Words;
    words := [];
    var pos := 0;
    assert line[0..] == line;
    while pos < |line|
      invariant pos <= |line|
      invariant Words(line) == words + Words(line[pos..])
    {
      var a := SkipLoop(IsSpace, line, pos);
      WordsFrom(line, pos);
      if a == |line| || line[a] == '#' || line[a] == ';' {
        return;
      }
      var b := SkipLoop(NotSpace, line, a);
      words := words + [line[a..b]];
      pos := b;
    }
    WordsFrom(line, pos);
  }

  method AnyWordHasQuoteOrBackslash(words: seq<string>) returns (r: bool)
    ensures r == AnyQuoted(words)
  {
    for i := 0 to |words|
      invariant forall w, c :: w in words[..i] && c in w ==> !IsQuoteOrBackslash(c)
    {
      var w := words[i];
      for j := 0 to |w|
        invariant forall c :: c in w[..j] ==> !IsQuoteOrBackslash(c)
      {
        if IsQuoteOrBackslash(w[j]) {
          assert w in words && w[j] in w;
          return true;
        }
      }
      assert w[..|w|] == w;
    }
    assert words[..|words|] == words;
    r := false;
  }

  // --- Directive values ---

  predicate IsV4Alias(subtype: string) { subtype == "dns-ipv4" || subtype == "dns_ipv4" }
  predicate IsV6Alias(subtype: string) { subtype == "dns-ipv6" || subtype == "dns_ipv6" }

  /** The dhcp-option spellings whose value reaches the DNS hooks. */
  predicate IsDnsSubtype(subtype: string)
  {
    subtype == "dns" || subtype == "dns6" || IsV4Alias(subtype) || IsV6Alias(subtype)
  }

  predicate IsDhcpOptionValueAllowed(v: Validators, line: string)
  {
    var words := Words(line);
    if AnyQuoted(words) then false
    else if |words| < 2 then true
    else
      var subtype := Lower(words[1]);
      if !IsDnsSubtype(subtype) then true
      else if |words| != 3 || !v.validIp(words[2]) then false
      else if IsV4Alias(subtype) then ':' !in words[2]
      else if IsV6Alias(subtype) then ':' in words[2]
      else true
  }

  predicate NotColon(c: char) { c != ':' }

  /** One past the last colon, or 0. */
  function AfterLastColon(s: string): (i: nat)
    ensures i <= |s|
    ensures i > 0 ==> s[i - 1] == ':'
    ensures forall k :: i <= k < |s| ==> s[k] != ':'
  {
    if s == "" then 0
    else if s[|s| - 1] == ':' then |s|
    else AfterLastColon(s[..|s| - 1])
  }

  predicate IsDnsAddressToken(v: Validators, token: string)
  {
    var first := SkipWhile(NotColon, token, 0);
    var last := AfterLastColon(token);
    if last == 0 then
      v.validIp(token)
    else if first == last - 1 then
      last != 1 && v.validPort(token[last..]) && v.validIp(token[..last - 1])
    else if token[0] == '[' then
      && last >= 3 && token[last - 2] == ']'
      && last - 2 > 1 && v.validPort(token[last..]) && v.validIp(token[1..last - 2])
    else
      v.validIp(token)
  }

  // --- The address forms a dns directive may list ---

  predicate SeveralColons(s: string) { exists i, j :: 0 <= i < j < |s| && s[i] == ':' && s[j] == ':' }

  /** An address and a port joined by the only colon. */
  predicate WithPort(v: Validators, token: string, addr: string, port: string)
  {
    && token == addr + ":" + port && ':' !in addr && ':' !in port
    && addr != "" && v.validPort(port) && v.validIp(addr)
  }

  /** A bracketed address with colons, and a port. */
  predicate Bracketed(v: Validators, token: string, addr: string, port: string)
  {
    && token == "[" + addr + "]:" + port && ':' in addr && ':' !in port
    && v.validPort(port) && v.validIp(addr)
  }

  lemma ColonsOf(token: string)
    ensures var first := SkipWhile(NotColon, token, 0); var last := AfterLastColon(token);
      && (last == 0 <==> ':' !in token)
      && (last > 0 ==> first <= last - 1 && (first < last - 1 <==> SeveralColons(token)))
  {
  }

  lemma OnlyColon(token: string, addr: string, port: string)
    requires token == addr + ":" + port && ':' !in addr && ':' !in port
    ensures SkipWhile(NotColon, token, 0) == |addr| && AfterLastColon(token) == |addr| + 1
  {
    assert forall k :: 0 <= k < |addr| ==> token[k] == addr[k] && addr[k] in addr;
    assert forall k :: 0 <= k < |port| ==> token[|addr| + 1 + k] == port[k] && port[k] in port;
    SkipUnique(NotColon, token, 0, |addr|);
    assert token[|addr|] == ':';
  }

  lemma LastColonOf(token: string, addr: string, port: string)
    requires token == "[" + addr + "]:" + port && ':' in addr && ':' !in port
    ensures AfterLastColon(token) == |addr| + 3 && SeveralColons(token)
  {
    assert forall k :: 0 <= k < |port| ==> token[|addr| + 3 + k] == port[k] && port[k] in port;
    assert token[|addr| + 2] == ':';
    var i :| 0 <= i < |addr| && addr[i] == ':';
    assert token[i + 1] == ':';
  }

  lemma SplitAtOnlyColon(token: string, k: nat)
    requires k < |token| && token[k] == ':'
    requires SkipWhile(NotColon, token, 0) == k && AfterLastColon(token) == k + 1
    ensures token == token[..k] + ":" + token[k + 1..] && ':' !in token[..k] && ':' !in token[k + 1..]
  {
    hide SkipWhile, AfterLastColon;
  }

  lemma SplitAtBracket(token: string, first: nat, k: nat)
    requires first < k < |token| && k >= 2 && token[0] == '[' && token[k - 1] == ']' && token[k] == ':'
    requires SkipWhile(NotColon, token, 0) == first && AfterLastColon(token) == k + 1
    ensures token == "[" + token[1..k - 1] + "]:" + token[k + 1..]
    ensures ':' in token[1..k - 1] && ':' !in token[k + 1..]
  {
    hide SkipWhile, AfterLastColon;
    assert token[1..k - 1][first - 1] == ':';
  }

  ghost predicate WithPortForm(v: Validators, token: string) { exists addr, port :: WithPort(v, token, addr, port) }

  ghost predicate BracketedForm(v: Validators, token: string) { exists addr, port :: Bracketed(v, token, addr, port) }

  lemma WithPortAccepted(v: Validators, token: string, addr: string, port: string)
    requires WithPort(v, token, addr, port)
    ensures IsDnsAddressToken(v, token)
  {
    hide SkipWhile, AfterLastColon;
    OnlyColon(token, addr, port);
    assert token[..|addr|] == addr && token[|addr| + 1..] == port;
  }

  lemma BracketedAccepted(v: Validators, token: string, addr: string, port: string)
    requires Bracketed(v, token, addr, port)
    ensures IsDnsAddressToken(v, token)
  {
    hide SkipWhile, AfterLastColon, SeveralColons;
    LastColonOf(token, addr, port);
    ColonsOf(token);
    assert token[1..|addr| + 1] == addr && token[|addr| + 3..] == port && token[|addr| + 1] == ']' && token[0] == '[';
  }

  lemma AcceptedForms(v: Validators, token: string)
    requires IsDnsAddressToken(v, token) && AfterLastColon(token) > 0
    ensures
      || WithPortForm(v, token)
      || (SeveralColons(token) && token[0] != '[' && v.validIp(token))
      || BracketedForm(v, token)
  {
    hide SkipWhile, AfterLastColon, SeveralColons, WithPortForm, BracketedForm;
    ColonsOf(token);
    var first, last := SkipWhile(NotColon, token, 0), AfterLastColon(token);
    if first == last - 1 {
      SplitAtOnlyColon(token, first);
      assert WithPort(v, token, token[..first], token[last..]);
      assert WithPortForm(v, token) by { WithPortShown(v, token, token[..first], token[last..]); }
    } else if token[0] == '[' {
      SplitAtBracket(token, first, last - 1);
      BracketedShown(v, token, token[1..last - 2], token[last..]);
    }
  }

  lemma WithPortShown(v: Validators, token: string, addr: string, port: string)
    requires WithPort(v, token, addr, port)
    ensures WithPortForm(v, token)
  {
  }

  lemma BracketedShown(v: Validators, token: string, addr: string, port: string)
    requires Bracketed(v, token, addr, port)
    ensures BracketedForm(v, token)
  {
  }

  /** A resolver token is accepted exactly when it is an address without a colon, such an address with a port, an
      address with several colons outside brackets, or a bracketed one with a port. */
  lemma DnsTokenForms(v: Validators, token: string)
    ensures IsDnsAddressToken(v, token) <==>
      || (':' !in token && v.validIp(token))
      || WithPortForm(v, token)
      || (SeveralColons(token) && token[0] != '[' && v.validIp(token))
      || BracketedForm(v, token)
  {
    hide SkipWhile, AfterLastColon, SeveralColons, WithPort, Bracketed;
    ColonsOf(token);
    if IsDnsAddressToken(v, token) && AfterLastColon(token) > 0 {
      AcceptedForms(v, token);
    }
    if WithPortForm(v, token) {
      var addr, port :| WithPort(v, token, addr, port);
      WithPortAccepted(v, token, addr, port);
    }
    if BracketedForm(v, token) {
      var addr, port :| Bracketed(v, token, addr, port);
      BracketedAccepted(v, token, addr, port);
    }
  }

  predicate IsDnsDirectiveValueAllowed(v: Validators, line: string)
  {
    var words := Words(line);
    if AnyQuoted(words) then false
    else if |words| >= 4 && words[1] == "server" && words[3] == "address" then
      |words| >= 5 && forall j :: 4 <= j < |words| ==> IsDnsAddressToken(v, words[j])
    else true
  }

  /** A directive line allowed outside every inline block. */
  predicate DirectiveAllowed(v: Validators, line: string)
  {
    var name := DirectiveName(line);
    && IsAllowedName(name)
    && (IsBareOnly(name) ==> !HasArgument(line))
    && (name == "dhcp-option" ==> IsDhcpOptionValueAllowed(v, line))
    && (name == "dns" ==> IsDnsDirectiveValueAllowed(v, line))
  }

  /** The first word of an allowed directive line never looks like an inline tag. */
  lemma AllowedDirectiveIsNotATag(v: Validators, line: string)
    requires DirectiveAllowed(v, line)
    ensures Words(line) != [] ==> Words(line)[0] != "" && Words(line)[0][0] != '<'
  {
    var i := SkipWhile(IsBlank, line, 0);
    AllowedNameStartsWithLetter(DirectiveName(line));
    var raw := line[NameStart(line)..NameEnd(line)];
    assert raw != "" && LowerChar(raw[0]) == DirectiveName(line)[0];
    assert !IsSpace(line[i]) && line[i] != '<';
    SkipUnique(IsSpace, line, 0, i);
  }
}
