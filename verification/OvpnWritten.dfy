/** What the filter admits outside inline blocks, stated on the words the reader splits a line into and on the
    validators alone. */
module OvpnWritten {
  import opened Text
  import opened OvpnDirectives
  import opened OvpnFilter

  // --- The guarantee on one directive ---

  /** The directive the reader acts on, in lower case. */
  function Directive(word: string): string
  {
    Lower(if |word| >= 2 && word[0] == '-' && word[1] == '-' then word[2..] else word)
  }

  predicate Unquoted(words: seq<string>)
  {
    forall w, c :: w in words && c in w ==> c != '"' && c != '\'' && c != '\\'
  }

  /** Exactly one more word, an IP literal, of the family that the spelling names. */
  predicate ResolverValue(v: Validators, spelling: string, words: seq<string>)
  {
    && |words| == 3 && v.validIp(words[2])
    && (spelling == "dns-ipv4" || spelling == "dns_ipv4" ==> ':' !in words[2])
    && (spelling == "dns-ipv6" || spelling == "dns_ipv6" ==> ':' in words[2])
  }

  /** An address without a colon, such an address with a port, one with several colons, or a bracketed one with a
      port. */
  ghost predicate ResolverAddress(v: Validators, token: string)
  {
    || (':' !in token && v.validIp(token))
    || WithPortForm(v, token)
    || (SeveralColons(token) && token[0] != '[' && v.validIp(token))
    || BracketedForm(v, token)
  }

  /** A directive of the list whose words can carry neither a file name for the credentials nor anything but addresses
      into the resolver hooks. */
  ghost predicate Written(v: Validators, words: seq<string>)
  {
    && words != []
    && var name := Directive(words[0]);
       && IsAllowedName(name)
       && (name == "auth-user-pass" ==> |words| == 1)
       && (name == "dhcp-option" ==>
             && Unquoted(words)
             && (|words| >= 2 ==>
                   var spelling := Lower(words[1]);
                   spelling in {"dns", "dns6", "dns-ipv4", "dns_ipv4", "dns-ipv6", "dns_ipv6"} ==>
                     ResolverValue(v, spelling, words)))
       && (name == "dns" ==>
             && Unquoted(words)
             && (|words| >= 4 && words[1] == "server" && words[3] == "address" ==>
                   |words| >= 5 && forall j :: 4 <= j < |words| ==> ResolverAddress(v, words[j])))
  }

  /** A carriage return inside the line stands where the argument check stops looking. */
  predicate CrAfterName(line: string)
  {
    var i := SkipWhile(IsBlank, line, NameEnd(line));
    i < |line| && line[i] == '\r'
  }

  predicate HiddenArgument(line: string) { DirectiveName(line) == "auth-user-pass" && CrAfterName(line) }

  // --- Names and arguments as words ---

  /** Without unsafe bytes, white space is what ends a name. */
  lemma SpacesOf(line: string)
    requires Clean(line)
    ensures forall k :: 0 <= k < |line| ==>
      line[k] != '\n' && (NotSpace(line[k]) <==> NotNameEnd(line[k])) && (IsBlank(line[k]) ==> IsSpace(line[k])) &&
      (IsSpace(line[k]) && !IsBlank(line[k]) ==> line[k] == '\r')
  {
    forall k | 0 <= k < |line| ensures line[k] != '\n' && !IsUnsafeByte(line[k]) {
      assert line[k] in line;
    }
  }

  lemma StartsAtOnce(line: string)
    requires Trim(line) == line && !IsEmptyOrComment(line) && Clean(line)
    ensures SkipWhile(IsBlank, line, 0) == 0 && SkipWhile(IsSpace, line, 0) == 0
    ensures line != "" && line[0] != '#' && line[0] != ';'
    ensures NameStart(line) == if |line| >= 2 && line[0] == '-' && line[1] == '-' then 2 else 0
  {
    hide Trim, Clean;
    TrimProperties(line);
    SpacesOf(line);
    if line != "" {
      SkipUnique(IsBlank, line, 0, 0);
      SkipUnique(IsSpace, line, 0, 0);
    }
  }

  /** The first word is the directive name, and the others are the words behind it. */
  lemma NameAndWords(line: string)
    requires Clean(line) && Trim(line) == line && !IsEmptyOrComment(line)
    ensures Words(line) != [] && Directive(Words(line)[0]) == DirectiveName(line)
    ensures Words(line) == [line[..NameEnd(line)]] + Words(line[NameEnd(line)..])
  {
    hide Words, SkipWhile, Lower, Trim, Clean, IsEmptyOrComment, NameStart, IsBlank, IsSpace;
    StartsAtOnce(line);
    SpacesOf(line);
    WordsUnfold(line);
    var e := NameEnd(line);
    FirstWordEnds(line, e);
    assert line[0..e] == line[..e];
    assert NameStart(line) == 2 ==> line[..e][2..] == line[2..e];
  }

  lemma FirstWordEnds(line: string, e: nat)
    requires Clean(line) && NameStart(line) <= 2 && e == NameEnd(line)
    requires NameStart(line) == 0 || (NameStart(line) == 2 && line[0] == '-' && line[1] == '-')
    ensures SkipWhile(NotSpace, line, 0) == e
  {
    hide SkipWhile, Clean, NameStart;
    SpacesOf(line);
    SkipUnique(NotSpace, line, 0, e);
  }

  lemma ArgumentsAreWords(line: string)
    requires Clean(line) && Trim(line) == line && !IsEmptyOrComment(line)
    ensures HasArgument(line) <==> |Words(line)| > 1 && !CrAfterName(line)
  {
    hide Words, SkipWhile, NameEnd, Trim, Clean, IsEmptyOrComment, IsSpace, IsBlank, NotSpace, NotNameEnd;
    NameAndWords(line);
    SpacesOf(line);
    var e := NameEnd(line);
    WordsFrom(line, e);
    var i := SkipWhile(IsBlank, line, e);
    if i == |line| || line[i] != '\r' {
      SkipUnique(IsSpace, line, e, i);
    }
  }

  lemma NoWords(line: string)
    requires Clean(line) && Trim(line) == line
    ensures IsEmptyOrComment(line) <==> Words(line) == []
  {
    hide Words, SkipWhile, Clean, Trim;
    if IsEmptyOrComment(line) {
      TrimProperties(line);
      WordsUnfold(line);
      SpacesOf(line);
      SkipUnique(IsBlank, line, 0, 0);
      SkipUnique(IsSpace, line, 0, 0);
    } else {
      NameAndWords(line);
    }
  }

  // --- Values ---

  lemma QuotedIff(words: seq<string>)
    ensures AnyQuoted(words) <==> !Unquoted(words)
  {
  }

  lemma AddressIff(v: Validators, token: string)
    ensures IsDnsAddressToken(v, token) <==> ResolverAddress(v, token)
  {
    hide IsDnsAddressToken, SeveralColons, WithPortForm, BracketedForm;
    DnsTokenForms(v, token);
  }

  /** A directive line is allowed exactly when its words are as written above, except that a carriage return hides the
      arguments of the bare-only directive. */
  lemma AllowedIffWritten(v: Validators, line: string)
    requires Clean(line) && Trim(line) == line && !IsEmptyOrComment(line)
    ensures DirectiveAllowed(v, line) <==>
      Written(v, Words(line)) || HiddenArgument(line)
  {
    hide Words, Trim, DirectiveName, CrAfterName, Clean, IsEmptyOrComment, HasArgument, IsDnsAddressToken;
    hide ResolverAddress, AnyQuoted, Unquoted, Directive;
    hide ConnectionDirectives, NetworkDirectives, OtherDirectives;
    NameAndWords(line);
    ArgumentsAreWords(line);
    var words := Words(line);
    QuotedIff(words);
    forall j | 0 <= j < |words| ensures IsDnsAddressToken(v, words[j]) <==> ResolverAddress(v, words[j]) {
      AddressIff(v, words[j]);
    }
  }

  /** A line the filter may leave for the reader to meet outside inline blocks. */
  ghost predicate Admissible(v: Validators, line: string)
  {
    Words(line) == [] || Known(LineTag(line)) || Written(v, Words(line)) || HiddenArgument(line)
  }

  lemma AllowedOutsideIff(v: Validators, line: string)
    requires Clean(line) && Trim(line) == line
    ensures AllowedOutside(v, line) <==> Admissible(v, line)
  {
    hide Words, Trim, Clean, IsEmptyOrComment, HiddenArgument, Written, DirectiveAllowed, Known, LineTag;
    NoWords(line);
    if !IsEmptyOrComment(line) {
      AllowedIffWritten(v, line);
    } else {
      assert AllowedOutside(v, line);
    }
  }

  /** The bare-only directive is kept without a second word exactly when a carriage return behind its name, if any, is
      followed by a comment. */
  lemma BareIff(v: Validators, line: string)
    requires Clean(line) && Trim(line) == line && !IsEmptyOrComment(line)
    requires DirectiveAllowed(v, line) && DirectiveName(line) == "auth-user-pass"
    ensures |Words(line)| == 1 <==>
      (CrAfterName(line) ==>
         var i := SkipWhile(IsSpace, line, NameEnd(line)); i < |line| && (line[i] == '#' || line[i] == ';'))
  {
    hide Words, SkipWhile, NameEnd, Trim, Clean, IsEmptyOrComment, HasArgument, DirectiveName, IsAllowedName;
    NameAndWords(line);
    ArgumentsAreWords(line);
    WordsFrom(line, NameEnd(line));
    TrimProperties(line);
    if CrAfterName(line) {
      SomethingFollows(line, NameEnd(line));
    }
  }

  lemma SomethingFollows(line: string, from: nat)
    requires from < |line| && !IsTrimChar(line[|line| - 1]) && Clean(line)
    ensures SkipWhile(IsSpace, line, from) < |line|
  {
    hide SkipWhile, Clean;
    SpacesOf(line);
  }

  // --- The list itself ---

  /** The directives the helper appends itself. */
  function Overridden(): set<string>
  {
    {"verb", "script-security", "up", "down", "down-pre", "management", "management-query-passwords",
     "management-hold", "http-proxy", "socks-proxy", "dev", "dev-type", "dev-node", "disable-dco"}
  }

  lemma NotForConnection(name: string)
    requires name in Overridden()
    ensures name !in ConnectionDirectives()
  {
  }

  lemma NotForCrypto(name: string)
    requires name in Overridden()
    ensures name !in CryptoDirectives()
  {
  }

  lemma NotForNetwork(name: string)
    requires name in Overridden()
    ensures name !in NetworkDirectives()
  {
  }

  /** A config cannot set what the helper sets. */
  lemma OverriddenNotListed(name: string)
    requires name in Overridden()
    ensures !IsAllowedName(name)
  {
    hide ConnectionDirectives, CryptoDirectives, NetworkDirectives;
    NotForConnection(name);
    NotForCrypto(name);
    NotForNetwork(name);
  }
}
