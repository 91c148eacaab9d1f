/** The request target of `do_command`: every command is POSTed to
    `http://{host}:{port}/api/{command}?token={token}`, built from the
    configuration current at the time of the call. The token and the command
    are inserted verbatim, without percent-encoding. */
module CommandClient {
  import opened Wrappers
  import opened Values
  import opened JsString

  /** The URL `do_command` sends `command` to under the configuration `c`. */
  function RequestUrl(c: Config, command: string): (url: string)
    ensures |url| == 20 + |c.host| + |Decimal(c.port)| + |command| + |c.token|
    ensures url[..7] == "http://" && url[7..7 + |c.host|] == c.host
    ensures url[|url| - |c.token|..] == c.token
  {
    "http://" + c.host + ":" + Decimal(c.port) + "/api/" + command + "?token=" + c.token
  }

  /** The parts a request URL is built from. */
  datatype UrlParts = UrlParts(host: string, port: nat, command: string, token: string)

  /** `s` cut at the first occurrence of `c`: what comes before and after it. */
  function Cut(s: string, c: char): (r: Option<(string, string)>)
    ensures r.None? <==> Free(s, c)
    ensures r.Some? ==> Free(r.value.0, c) && s == r.value.0 + [c] + r.value.1
  {
    if s == [] then None
    else if s[0] == c then Some(([], s[1..]))
    else
      match Cut(s[1..], c)
      case None => None
      case Some((before, after)) => Some(([s[0]] + before, after))
  }

  /** `s` starts with `prefix`; what follows it. */
  function After(s: string, prefix: string): Option<string> {
    if |prefix| <= |s| && s[..|prefix|] == prefix then Some(s[|prefix|..]) else None
  }

  predicate AllDigits(s: string) {
    forall i | 0 <= i < |s| :: IsDigit(s[i])
  }

  /** Reads `{command}?token={token}`. */
  function ParseCommandPart(s: string): Option<(string, string)> {
    match Cut(s, '?')
    case None => None
    case Some((command, rest)) =>
      match After(rest, "token=")
      case None => None
      case Some(token) => Some((command, token))
  }

  /** Reads `{port}/api/{command}?token={token}`; the port must be written as
      `${port}` writes it (digits only, no leading zero). */
  function ParsePortPart(s: string): Option<(nat, string, string)> {
    match Cut(s, '/')
    case None => None
    case Some((portText, rest)) =>
      if !AllDigits(portText) || Decimal(DecimalValue(portText)) != portText then None
      else
        match After(rest, "api/")
        case None => None
        case Some(target) =>
          match ParseCommandPart(target)
          case None => None
          case Some((command, token)) => Some((DecimalValue(portText), command, token))
  }

  /** Reads a URL of the shape `RequestUrl` builds back into its parts. */
  function ParseRequestUrl(u: string): Option<UrlParts> {
    match After(u, "http://")
    case None => None
    case Some(rest) =>
      match Cut(rest, ':')
      case None => None
      case Some((host, rest1)) =>
        match ParsePortPart(rest1)
        case None => None
        case Some((port, command, token)) => Some(UrlParts(host, port, command, token))
  }

  /** Cutting `a + [c] + b` at `c`, with no `c` in `a`, gives `a` and `b`. */
  lemma {:induction false} CutAtFirst(a: string, c: char, b: string)
    requires Free(a, c)
    ensures Cut(a + [c] + b, c) == Some((a, b))
  {
    var s := a + [c] + b;
    if a == [] {
      assert s[0] == c && s[1..] == b;
    } else {
      assert s[0] == a[0] && s[1..] == a[1..] + [c] + b;
      CutAtFirst(a[1..], c, b);
      assert [a[0]] + a[1..] == a;
    }
  }

  lemma AfterPrefix(prefix: string, s: string)
    ensures After(prefix + s, prefix) == Some(s)
  {
  }

  /** `{command}?token={token}`, written as the parser cuts it. */
  function CommandPart(command: string, token: string): string {
    command + ['?'] + ("token=" + token)
  }

  /** `{port}/api/{command}?token={token}`, written as the parser cuts it. */
  function PortPart(port: nat, command: string, token: string): string {
    Decimal(port) + ['/'] + ("api/" + CommandPart(command, token))
  }

  /** The request URL, regrouped the way the parser reads it. */
  lemma RequestUrlLayout(c: Config, command: string)
    ensures RequestUrl(c, command) == "http://" + (c.host + [':'] + PortPart(c.port, command, c.token))
  {
  }

  lemma CommandPartRoundTrip(command: string, token: string)
    requires Free(command, '?')
    ensures ParseCommandPart(CommandPart(command, token)) == Some((command, token))
  {
    CutAtFirst(command, '?', "token=" + token);
    AfterPrefix("token=", token);
  }

  lemma PortPartRoundTrip(port: nat, command: string, token: string)
    requires Free(command, '?')
    ensures ParsePortPart(PortPart(port, command, token)) == Some((port, command, token))
  {
    var digits := Decimal(port);
    assert Free(digits, '/');
    CutAtFirst(digits, '/', "api/" + CommandPart(command, token));
    DecimalRoundTrip(port);
    AfterPrefix("api/", CommandPart(command, token));
    CommandPartRoundTrip(command, token);
  }

  /** The URL determines the host, port, command and token it was built from,
      provided the host has no `:` and the command no `?` (an IPv4 host and
      the module's command names satisfy both). The token may contain anything. */
  lemma ParseRequestUrlRoundTrip(c: Config, command: string)
    requires Free(c.host, ':') && Free(command, '?')
    ensures ParseRequestUrl(RequestUrl(c, command)) == Some(UrlParts(c.host, c.port, command, c.token))
  {
    var rest1 := PortPart(c.port, command, c.token);
    RequestUrlLayout(c, command);
    AfterPrefix("http://", c.host + [':'] + rest1);
    CutAtFirst(c.host, ':', rest1);
    PortPartRoundTrip(c.port, command, c.token);
  }

  lemma CommandPartSound(s: string, command: string, token: string)
    requires ParseCommandPart(s) == Some((command, token))
    ensures s == CommandPart(command, token) && Free(command, '?')
  {
  }

  lemma PortPartSound(s: string, port: nat, command: string, token: string)
    requires ParsePortPart(s) == Some((port, command, token))
    ensures s == PortPart(port, command, token) && Free(command, '?')
  {
  }

  /** Conversely, every URL the parser accepts is the one built from its parts. */
  lemma ParseRequestUrlSound(u: string, parts: UrlParts)
    requires ParseRequestUrl(u) == Some(parts)
    ensures u == RequestUrl(Config(parts.host, parts.port, parts.token), parts.command)
    ensures Free(parts.host, ':') && Free(parts.command, '?')
  {
    var rest := After(u, "http://").value;
    assert u == "http://" + rest;
    var cut := Cut(rest, ':');
    var rest1 := cut.value.1;
    assert ParsePortPart(rest1) == Some((parts.port, parts.command, parts.token));
    PortPartSound(rest1, parts.port, parts.command, parts.token);
    RequestUrlLayout(Config(parts.host, parts.port, parts.token), parts.command);
  }
}
