/**
 How the proxy rewrites an agent's headers into the upstream request, and which of
 the agent's headers the request can depend on.
 */
module Headers {
  import opened Prelude
  import opened AsciiText

  datatype Header = Header(name: string, value: string)

  // The credential is the one already chosen between a per-agent override and the
  // registration's default; it is absent when none could be resolved.
  datatype Auth =
    | NoAuth
    | HeaderAuth(header: string, credential: Option<string>)
    | BearerAuth(credential: Option<string>)
    | OauthAuth(access: Option<string>, account: Option<string>)

  datatype Target = Target(upstream: string, auth: Auth)

  datatype Request = Request(method_: string, url: string, headers: seq<Header>, body: Option<string>)

  predicate Contains(s: string, t: string) {
    exists i :: 0 <= i <= |s| && t <= s[i..]
  }

  predicate IsCodex(target: Target) {
    Contains(Lower(target.upstream), "/backend-api/codex")
  }

  function StripHeader(auth: Auth): Option<string> {
    if auth.HeaderAuth? then Some(Lower(auth.header)) else None
  }

  predicate Stripped(target: Target, header: Header) {
    StrippedName(target, Lower(header.name))
  }

  predicate StrippedName(target: Target, name: string) {
    || name == "host"
    || name == "authorization"
    || name == "x-api-key"
    || name == "content-length"
    || name == "transfer-encoding"
    || (IsCodex(target) && name == "openai-beta")
    || StripHeader(target.auth) == Some(name)
  }

  predicate Named(header: Header, name: string) {
    Lower(header.name) == name
  }

  predicate Mentions(headers: seq<Header>, name: string) {
    exists h <- headers :: Named(h, name)
  }

  // The agent's headers that survive, in their order.
  function Kept(target: Target, headers: seq<Header>): seq<Header> {
    if headers == [] then []
    else (if Stripped(target, headers[0]) then [] else [headers[0]]) + Kept(target, headers[1..])
  }

  function Credentials(target: Target): seq<Header> {
    match target.auth
    case NoAuth => []
    case HeaderAuth(header, credential) =>
      if credential.Some? then [Header(header, credential.value)] else []
    case BearerAuth(credential) =>
      if credential.Some? then [Header("Authorization", "Bearer " + credential.value)] else []
    case OauthAuth(access, account) =>
      (if access.Some? then [Header("Authorization", "Bearer " + access.value)] else [])
      + (if account.Some? && IsCodex(target) then [Header("ChatGPT-Account-ID", account.value)] else [])
  }

  function CodexHeaders(target: Target, sentOriginator: bool, agent: Option<string>): seq<Header> {
    if !IsCodex(target) then []
    else
      [Header("OpenAI-Beta", "responses=experimental")]
      + if sentOriginator then []
        else [Header("originator", if agent.Some? then agent.value else "locksmith-proxy")]
  }

  // What the agent's headers contribute to the request: what is kept of them, and for
  // codex whether an `originator` was among them.
  ghost function Built(target: Target, verb: string, url: string, headers: seq<Header>, body: string,
                       agent: Option<string>): Request
  {
    Request(verb, url,
            Kept(target, headers) + Credentials(target)
            + CodexHeaders(target, Mentions(headers, "originator"), agent),
            if body == "" then None else Some(body))
  }

  method BuildUpstreamRequest(target: Target, verb: string, url: string, headers: seq<Header>, body: string,
                              agent: Option<string>)
    returns (request: Request)
    ensures request == Built(target, verb, url, headers, body, agent)
  {
    hide Stripped, Named, Lower;
    var codex := IsCodex(target);
    var sentOriginator := codex && exists h <- headers :: Named(h, "originator");
    var out: seq<Header> := [];
    for i := 0 to |headers|
      invariant out == Kept(target, headers[..i])
    {
      KeptAppend(target, headers[..i], headers[i]);
      assert headers[..i] + [headers[i]] == headers[..i + 1];
      if Stripped(target, headers[i]) {
        continue;
      }
      out := out + [headers[i]];
    }
    assert headers[..|headers|] == headers;
    out := out + Credentials(target);
    if codex {
      out := out + [Header("OpenAI-Beta", "responses=experimental")];
      if !sentOriginator {
        out := out + [Header("originator", if agent.Some? then agent.value else "locksmith-proxy")];
      }
    }
    request := Request(verb, url, out, if body == "" then None else Some(body));
  }

  lemma {:induction false} KeptAppend(target: Target, headers: seq<Header>, last: Header)
    ensures Kept(target, headers + [last]) ==
            Kept(target, headers) + (if Stripped(target, last) then [] else [last])
  {
    hide Stripped;
    if headers == [] {
      assert headers + [last] == [last] && [last][1..] == [];
    } else {
      assert (headers + [last])[1..] == headers[1..] + [last];
      KeptAppend(target, headers[1..], last);
    }
  }

  // ---- Independence --------------------------------------------------------

  lemma {:induction false} KeptMentions(target: Target, headers: seq<Header>, name: string)
    requires forall h :: Named(h, name) ==> !Stripped(target, h)
    ensures Mentions(headers, name) <==> Mentions(Kept(target, headers), name)
  {
    hide Stripped, Named;
    if headers != [] {
      KeptMentions(target, headers[1..], name);
      var first, rest := headers[0], Kept(target, headers[1..]);
      assert headers == [first] + headers[1..];
      if Mentions(headers, name) && !Named(first, name) {
        assert Mentions(headers[1..], name);
        var h :| h in rest && Named(h, name);
        assert h in Kept(target, headers);
      }
      if Mentions(Kept(target, headers), name) && !Named(first, name) {
        var h :| h in Kept(target, headers) && Named(h, name);
        assert h in rest;
        assert Mentions(rest, name);
      }
    }
  }

  // The one target whose own credential header is the header codex looks at before
  // stripping.
  predicate OriginatorIsCredential(target: Target) {
    IsCodex(target) && target.auth.HeaderAuth? && Lower(target.auth.header) == "originator"
  }

  ghost predicate Independent(target: Target) {
    forall verb: string, url: string, body: string, agent: Option<string>, a: seq<Header>, b: seq<Header> ::
      Kept(target, a) == Kept(target, b) ==>
        Built(target, verb, url, a, body, agent) == Built(target, verb, url, b, body, agent)
  }

  lemma OriginatorHeader() returns (h: Header)
    ensures Named(h, "originator")
  {
    hide Lower;
    h := Header("originator", "x");
    LowerFixed(h.name);
  }

  lemma KeepsOriginator(target: Target, h: Header)
    requires IsCodex(target) && !OriginatorIsCredential(target) && Named(h, "originator")
    ensures !Stripped(target, h)
  {
    hide IsCodex, Lower;
  }

  lemma DependsOnOriginator(target: Target)
    requires OriginatorIsCredential(target)
    ensures !Independent(target)
  {
    var h := OriginatorHeader();
    hide IsCodex, Lower;
    var sent := [h];
    assert Stripped(target, h) && sent[1..] == [];
    assert Kept(target, sent) == Kept(target, []) == [];
    assert h in sent && Mentions(sent, "originator") && !Mentions([], "originator");
    var with, without := Built(target, "", "", sent, "", None), Built(target, "", "", [], "", None);
    assert |without.headers| == |with.headers| + 1;
  }

  // Two header lists that agree after stripping build the same request, for every
  // target but the ones that inject `originator` itself as a codex credential.
  lemma RequestIndependentOfStripped(target: Target)
    ensures Independent(target) <==> !OriginatorIsCredential(target)
  {
    hide IsCodex, Lower, Stripped, Mentions, Kept, Named;
    if OriginatorIsCredential(target) {
      DependsOnOriginator(target);
    } else if IsCodex(target) {
      forall h | Named(h, "originator") ensures !Stripped(target, h) {
        KeepsOriginator(target, h);
      }
      forall a: seq<Header>, b: seq<Header> | Kept(target, a) == Kept(target, b)
        ensures Mentions(a, "originator") <==> Mentions(b, "originator")
      {
        KeptMentions(target, a, "originator");
        KeptMentions(target, b, "originator");
      }
    }
  }

  // No header of the agent's reaches the upstream under a stripped name.
  lemma {:induction false} KeptIsUnstripped(target: Target, headers: seq<Header>)
    ensures forall h <- Kept(target, headers) :: h in headers && !Stripped(target, h)
  {
    hide Stripped;
    if headers != [] {
      KeptIsUnstripped(target, headers[1..]);
    }
  }

  // The kept headers are exactly the unstripped ones, each forwarded once and in order.
  lemma {:induction false} KeptPositions(target: Target, headers: seq<Header>) returns (at: seq<nat>)
    ensures |at| == |Kept(target, headers)|
    ensures forall i, j :: 0 <= i < j < |at| ==> at[i] < at[j]
    ensures forall i :: 0 <= i < |at| ==> at[i] < |headers| && Kept(target, headers)[i] == headers[at[i]]
    ensures forall j :: 0 <= j < |headers| ==> (j in at <==> !Stripped(target, headers[j]))
    decreases |headers|
  {
    hide Stripped;
    if headers == [] {
      at := [];
    } else {
      var n := |headers| - 1;
      var front := headers[..n];
      assert headers == front + [headers[n]];
      KeptAppend(target, front, headers[n]);
      at := KeptPositions(target, front);
      if !Stripped(target, headers[n]) {
        at := at + [n];
      }
    }
  }

  lemma CodexSetsNoAuthorization(target: Target, sentOriginator: bool, agent: Option<string>, h: Header)
    requires h in CodexHeaders(target, sentOriginator, agent)
    ensures !Named(h, "authorization")
  {
    hide IsCodex, Lower;
    assert h.name == "OpenAI-Beta" || h.name == "originator";
    assert Lower(h.name)[0] == LowerChar(h.name[0]) == 'o';
  }

  // The `Authorization` headers sent upstream are the configured ones, whatever the
  // agent sent.
  lemma AuthorizationIsConfigured(target: Target, verb: string, url: string, headers: seq<Header>, body: string,
                                  agent: Option<string>, h: Header)
    requires h in Built(target, verb, url, headers, body, agent).headers && Named(h, "authorization")
    ensures h in Credentials(target)
  {
    hide IsCodex, Lower, Credentials, CodexHeaders, Kept, Mentions;
    KeptIsUnstripped(target, headers);
    var sentOriginator := Mentions(headers, "originator");
    if h in CodexHeaders(target, sentOriginator, agent) {
      CodexSetsNoAuthorization(target, sentOriginator, agent, h);
    }
  }

  // ---- Which names the proxy alone speaks for ------------------------------

  // Whatever the agent sends, each header that goes out under `name` is one the proxy put
  // there itself.
  ghost predicate OnlyInjected(target: Target, name: string) {
    forall verb: string, url: string, headers: seq<Header>, body: string, agent: Option<string>, h: Header ::
      h in Built(target, verb, url, headers, body, agent).headers && Named(h, name) ==>
        h in Injected(target, headers, agent)
  }

  ghost function Injected(target: Target, headers: seq<Header>, agent: Option<string>): seq<Header> {
    Credentials(target) + CodexHeaders(target, Mentions(headers, "originator"), agent)
  }

  // A value longer than all of these.
  function Longer(headers: seq<Header>): string {
    if headers == [] then "x" else headers[0].value + Longer(headers[1..])
  }

  lemma {:induction false} LongerIsNew(headers: seq<Header>, h: Header)
    requires h in headers
    ensures |h.value| < |Longer(headers)|
  {
    if headers[0] == h {
      assert |Longer(headers[1..])| > 0 by { LongerIsNonEmpty(headers[1..]); }
    } else {
      LongerIsNew(headers[1..], h);
    }
  }

  lemma {:induction false} LongerIsNonEmpty(headers: seq<Header>)
    ensures |Longer(headers)| > 0
  {
    if headers != [] {
      LongerIsNonEmpty(headers[1..]);
    }
  }

  // An agent's header under an unstripped name goes out beside the proxy's own.
  lemma ForwardedBesideInjected(target: Target, name: string)
    requires Lower(name) == name && !StrippedName(target, name)
    ensures !OnlyInjected(target, name)
  {
    hide IsCodex, Lower, Credentials, CodexHeaders, StrippedName;
    var probe := [Header(name, "")];
    var h := Header(name, Longer(Injected(target, probe, None)));
    var sent := [h];
    assert Mentions(sent, "originator") <==> Mentions(probe, "originator") by {
      assert h in sent && probe[0] in probe;
    }
    assert Injected(target, sent, None) == Injected(target, probe, None);
    assert sent[1..] == [] && Kept(target, sent) == sent;
    assert h in Built(target, "", "", sent, "", None).headers && Named(h, name);
    if h in Injected(target, sent, None) {
      LongerIsNew(Injected(target, sent, None), h);
      assert false;
    }
  }

  // The proxy alone speaks for exactly the names it strips.
  lemma OnlyInjectedIffStripped(target: Target, name: string)
    requires Lower(name) == name
    ensures OnlyInjected(target, name) <==> StrippedName(target, name)
  {
    hide IsCodex, Lower, Credentials, CodexHeaders, StrippedName, Kept, Mentions;
    if StrippedName(target, name) {
      forall verb: string, url: string, headers: seq<Header>, body: string, agent: Option<string>, h: Header |
        h in Built(target, verb, url, headers, body, agent).headers && Named(h, name)
        ensures h in Injected(target, headers, agent)
      {
        KeptIsUnstripped(target, headers);
      }
    } else {
      ForwardedBesideInjected(target, name);
    }
  }

  const ACCOUNT_ID := "chatgpt-account-id"

  // The account id an OAuth target injects is not among them: an agent's own goes out
  // beside it, for every target but one that uses the name for its credential.
  lemma AccountIdIsForwarded(target: Target)
    ensures OnlyInjected(target, ACCOUNT_ID) <==> StripHeader(target.auth) == Some(ACCOUNT_ID)
    ensures target.auth.OauthAuth? ==> !OnlyInjected(target, ACCOUNT_ID)
  {
    hide Lower, IsCodex, OnlyInjected;
    LowerFixed(ACCOUNT_ID);
    OnlyInjectedIffStripped(target, ACCOUNT_ID);
  }

  // For a codex target with an account id, both go out: the agent's, whatever its value
  // and spelling, and then the proxy's.
  lemma BothAccountIdsGoOut(target: Target, verb: string, url: string, headers: seq<Header>, body: string,
                            agent: Option<string>, own: Header)
    requires target.auth.OauthAuth? && target.auth.account.Some? && IsCodex(target)
    requires own in headers && Named(own, ACCOUNT_ID)
    ensures var sent := Built(target, verb, url, headers, body, agent).headers;
            exists i, j :: 0 <= i < j < |sent| && sent[i] == own
                           && sent[j] == Header("ChatGPT-Account-ID", target.auth.account.value)
  {
    hide Lower, IsCodex;
    assert !Stripped(target, own);
    var at := KeptPositions(target, headers);
    hide Kept, CodexHeaders, Mentions, Stripped;
    var p :| 0 <= p < |headers| && headers[p] == own;
    var i :| 0 <= i < |at| && at[i] == p;
    var kept, credentials := Kept(target, headers), Credentials(target);
    var injected := Header("ChatGPT-Account-ID", target.auth.account.value);
    assert credentials[|credentials| - 1] == injected;
    var sent := Built(target, verb, url, headers, body, agent).headers;
    var j := |kept| + |credentials| - 1;
    assert sent[i] == own && sent[j] == injected;
  }

  // ---- What goes out under a name ------------------------------------------

  // The values sent under a name, in order.
  function Values(headers: seq<Header>, name: string): seq<string> {
    if headers == [] then []
    else (if Named(headers[0], name) then [headers[0].value] else []) + Values(headers[1..], name)
  }

  lemma {:induction false} ValuesJoin(a: seq<Header>, b: seq<Header>, name: string)
    ensures Values(a + b, name) == Values(a, name) + Values(b, name)
  {
    hide Named;
    if a == [] {
      assert a + b == b;
    } else {
      assert (a + b)[1..] == a[1..] + b;
      ValuesJoin(a[1..], b, name);
    }
  }

  lemma {:induction false} NoValues(headers: seq<Header>, name: string)
    requires forall h <- headers :: !Named(h, name)
    ensures Values(headers, name) == []
  {
    hide Named;
    if headers != [] {
      NoValues(headers[1..], name);
    }
  }

  lemma OneValue(h: Header, name: string)
    ensures Values([h], name) == if Named(h, name) then [h.value] else []
  {
    hide Named;
    assert [h][1..] == [];
  }

  lemma TwoValues(g: Header, h: Header, name: string)
    ensures Values([g, h], name) == Values([g], name) + Values([h], name)
  {
    assert [g, h] == [g] + [h];
    ValuesJoin([g], [h], name);
  }

  // A codex upstream is one that has the codex path somewhere in it, in any case.
  lemma CodexIff(target: Target)
    ensures IsCodex(target) <==>
            exists before: string, after: string :: Lower(target.upstream) == before + "/backend-api/codex" + after
  {
    hide Lower, Contains;
    ContainsIff(Lower(target.upstream), "/backend-api/codex");
  }

  lemma ContainsIff(s: string, t: string)
    ensures Contains(s, t) <==> exists before: string, after: string :: s == before + t + after
  {
    if Contains(s, t) {
      var i :| 0 <= i <= |s| && t <= s[i..];
      assert s == s[..i] + t + s[i..][|t|..];
    }
    if before: string, after: string :| s == before + t + after {
      assert s[|before|..] == t + after;
    }
  }

  // How the fixed names fold.
  lemma FixedNames()
    ensures Lower("Authorization") == "authorization" && Lower("ChatGPT-Account-ID") == ACCOUNT_ID
    ensures Lower("OpenAI-Beta") == "openai-beta" && Lower("originator") == "originator"
  {
    hide Lower;
    LowerIs("Authorization", "authorization");
    LowerIs("ChatGPT-Account-ID", ACCOUNT_ID);
    LowerIs("OpenAI-Beta", "openai-beta");
    LowerFixed("originator");
  }

  lemma LowerIs(s: string, t: string)
    requires |s| == |t| && forall i :: 0 <= i < |s| ==> LowerChar(s[i]) == t[i]
    ensures Lower(s) == t
  {
    hide Lower;
  }

  // The names the proxy strips from every request, from codex requests, and for a target
  // with a credential header of its own.
  lemma StrippedNames(target: Target)
    ensures StrippedName(target, "host") && StrippedName(target, "authorization") && StrippedName(target, "x-api-key")
    ensures StrippedName(target, "content-length") && StrippedName(target, "transfer-encoding")
    ensures IsCodex(target) ==> StrippedName(target, "openai-beta")
    ensures target.auth.HeaderAuth? ==> StrippedName(target, Lower(target.auth.header))
    ensures forall name ::
              name != "host" && name != "authorization" && name != "x-api-key" && name != "content-length"
              && name != "transfer-encoding" && !(name == "openai-beta" && IsCodex(target))
              && !(target.auth.HeaderAuth? && name == Lower(target.auth.header)) ==>
                !StrippedName(target, name)
  {
    hide Lower, IsCodex;
  }

  // What the proxy itself injects under a name.
  function Injection(target: Target, sentOriginator: bool, agent: Option<string>, name: string): seq<string> {
    Values(Credentials(target), name) + Values(CodexHeaders(target, sentOriginator, agent), name)
  }

  // Under a stripped name exactly the injected values go out; under any other name the
  // agent's come first, unchanged.
  lemma SentUnder(target: Target, verb: string, url: string, headers: seq<Header>, body: string,
                  agent: Option<string>, name: string)
    ensures var own := Injection(target, Mentions(headers, "originator"), agent, name);
            var sent := Values(Built(target, verb, url, headers, body, agent).headers, name);
            sent == (if StrippedName(target, name) then [] else Values(headers, name)) + own
  {
    hide Lower, IsCodex, StrippedName, Credentials, CodexHeaders, Kept, Mentions, Values;
    var kept, codex := Kept(target, headers), CodexHeaders(target, Mentions(headers, "originator"), agent);
    ValuesJoin(kept + Credentials(target), codex, name);
    ValuesJoin(kept, Credentials(target), name);
    KeptValues(target, headers, name);
  }

  lemma {:induction false} KeptValues(target: Target, headers: seq<Header>, name: string)
    ensures Values(Kept(target, headers), name) ==
            if StrippedName(target, name) then [] else Values(headers, name)
  {
    hide StrippedName, Lower;
    if headers != [] {
      KeptValues(target, headers[1..], name);
      var first := if Stripped(target, headers[0]) then [] else [headers[0]];
      ValuesJoin(first, Kept(target, headers[1..]), name);
      OneValue(headers[0], name);
      assert Values([], name) == [];
    }
  }

  // The codex headers: the beta flag always, the originator unless the agent sent one.
  lemma CodexInjection(target: Target, sentOriginator: bool, agent: Option<string>, name: string)
    ensures Values(CodexHeaders(target, sentOriginator, agent), name) ==
            if !IsCodex(target) then []
            else if name == "openai-beta" then ["responses=experimental"]
            else if name == "originator" && !sentOriginator then
              [if agent.Some? then agent.value else "locksmith-proxy"]
            else []
  {
    hide IsCodex, Lower, Values;
    FixedNames();
    var beta := Header("OpenAI-Beta", "responses=experimental");
    var originator := Header("originator", if agent.Some? then agent.value else "locksmith-proxy");
    OneValue(beta, name);
    OneValue(originator, name);
    TwoValues(beta, originator, name);
    NoValues([], name);
    assert "openai-beta"[1] != "originator"[1];
    assert [beta] + [] == [beta] && [beta] + [originator] == [beta, originator];
  }

  // The credential: for a header credential its value under its header, for a bearer or an
  // OAuth token "Bearer " and the token under `authorization`, and for a codex target with
  // OAuth the account id; nothing else, and nothing when it is absent.
  lemma CredentialInjection(target: Target, name: string)
    ensures Values(Credentials(target), name) ==
            match target.auth {
              case NoAuth => []
              case HeaderAuth(header, credential) =>
                if credential.Some? && name == Lower(header) then [credential.value] else []
              case BearerAuth(credential) =>
                if credential.Some? && name == "authorization" then ["Bearer " + credential.value] else []
              case OauthAuth(access, account) =>
                (if access.Some? && name == "authorization" then ["Bearer " + access.value] else [])
                + (if account.Some? && IsCodex(target) && name == ACCOUNT_ID then [account.value] else [])
            }
  {
    hide IsCodex, Lower, Values;
    FixedNames();
    NoValues([], name);
    match target.auth
    case NoAuth =>
    case HeaderAuth(header, credential) =>
      if credential.Some? {
        OneValue(Header(header, credential.value), name);
      }
    case BearerAuth(credential) =>
      if credential.Some? {
        OneValue(Header("Authorization", "Bearer " + credential.value), name);
      }
    case OauthAuth(access, account) =>
      var first := if access.Some? then [Header("Authorization", "Bearer " + access.value)] else [];
      var second := if account.Some? && IsCodex(target) then [Header("ChatGPT-Account-ID", account.value)] else [];
      ValuesJoin(first, second, name);
      if access.Some? {
        OneValue(first[0], name);
      }
      if account.Some? && IsCodex(target) {
        OneValue(second[0], name);
      }
  }

  // Whatever the agent sends, exactly the configured credential goes out under
  // `authorization`, and under the header of a header credential that codex does not use.
  lemma CredentialGoesOut(target: Target, verb: string, url: string, headers: seq<Header>, body: string,
                          agent: Option<string>)
    ensures var sent := Built(target, verb, url, headers, body, agent).headers;
            match target.auth {
              case NoAuth => Values(sent, "authorization") == []
              case BearerAuth(credential) =>
                Values(sent, "authorization") == if credential.Some? then ["Bearer " + credential.value] else []
              case OauthAuth(access, _) =>
                Values(sent, "authorization") == if access.Some? then ["Bearer " + access.value] else []
              case HeaderAuth(header, credential) =>
                Lower(header) != "openai-beta" && Lower(header) != "originator" ==>
                  Values(sent, Lower(header)) == if credential.Some? then [credential.value] else []
            }
  {
    hide Lower, IsCodex, Credentials, CodexHeaders, StrippedName, Built, Values;
    StrippedNames(target);
    var name := if target.auth.HeaderAuth? then Lower(target.auth.header) else "authorization";
    SentUnder(target, verb, url, headers, body, agent, name);
    CredentialInjection(target, name);
    CodexInjection(target, Mentions(headers, "originator"), agent, name);
    assert "authorization"[0] != "openai-beta"[0] && "authorization"[0] != "originator"[0];
    assert "authorization"[0] != ACCOUNT_ID[0];
  }

  // The rest of the request is the caller's: method, URL, and the body unless it is empty.
  lemma RestIsForwarded(target: Target, verb: string, url: string, headers: seq<Header>, body: string,
                        agent: Option<string>)
    ensures var request := Built(target, verb, url, headers, body, agent);
            && request.method_ == verb && request.url == url
            && (request.body == None <==> |body| == 0)
            && (|body| > 0 ==> request.body == Some(body))
  {
    hide Kept, Credentials, CodexHeaders, Mentions;
  }
}
