/** The stage preflight's env-file loader and its URL fields. */
module Preflight {
  import opened Text

  // ----- URLs

  function UrlScheme(url: string): string { Before(url, "://") }

  function UrlHost(url: string): string {
    Before(Before(After(url, "://"), "/"), "?")
  }

  /** `$(...)`: the output without the newlines at its end. */
  function Captured(s: string): string {
    if s != [] && s[|s| - 1] == '\n' then Captured(s[..|s| - 1]) else s
  }

  function UrlHostname(url: string): string {
    Before(AfterLast(Captured(UrlHost(url)), '@'), ":")
  }

  function DefaultPort(scheme: string): string {
    if scheme == "https" then "443"
    else if scheme == "http" then "80"
    else if scheme == "postgres" || scheme == "postgresql" then "5432"
    else if scheme == "nats" then "4222"
    else ""
  }

  function UrlPort(url: string): string {
    var hostport := AfterLast(Captured(UrlHost(url)), '@');
    if ':' in hostport then AfterLast(hostport, ':') else DefaultPort(Captured(UrlScheme(url)))
  }

  /** A URL in the parts of section 3 of RFC 3986, without an IPv6 literal or a fragment. */
  datatype Url = Url(scheme: string, user: Option<string>, host: string, port: Option<string>,
                     path: string, query: Option<string>)

  predicate Without(s: string, chars: string) {
    forall i :: 0 <= i < |s| ==> s[i] !in chars
  }

  /** The delimiters and line breaks each part may not contain; a query may contain any. */
  predicate WellFormed(u: Url) {
    && Without(u.scheme, ":/?@\n")
    && (u.user.Some? ==> Without(u.user.value, "/?\n"))
    && Without(u.host, ":/?@\n")
    && (u.port.Some? ==> forall i :: 0 <= i < |u.port.value| ==> IsDigit(u.port.value[i]))
    && (u.path != [] ==> u.path[0] == '/')
    && Without(u.path, "?")
  }

  function Authority(u: Url): string {
    (if u.user.Some? then u.user.value + "@" else "") + HostPort(u)
  }

  function HostPort(u: Url): string {
    u.host + (if u.port.Some? then ":" + u.port.value else "")
  }

  function Tail(u: Url): string {
    u.path + (if u.query.Some? then "?" + u.query.value else "")
  }

  function Compose(u: Url): string {
    u.scheme + "://" + (Authority(u) + Tail(u))
  }

  lemma AuthorityIsClean(u: Url)
    requires WellFormed(u)
    ensures Without(Authority(u), "/?\n") && Without(HostPort(u), "/?@")
  {
  }

  lemma CutTail(authority: string, tail: string)
    requires Without(authority, "/?")
    requires tail == [] || tail[0] == '/' || tail[0] == '?'
    ensures Before(Before(authority + tail, "/"), "?") == authority
  {
    if tail == [] {
      assert authority + tail == authority;
      NotFound(authority, "/");
      NotFound(authority, "?");
    } else if tail[0] == '/' {
      assert authority + tail == authority + "/" + tail[1..];
      SplitAt(authority, "/", tail[1..]);
      NotFound(authority, "?");
    } else {
      CutQuery(authority, tail);
    }
  }

  lemma CutQuery(authority: string, tail: string)
    requires Without(authority, "/?") && tail != [] && tail[0] == '?'
    ensures Before(Before(authority + tail, "/"), "?") == authority
  {
    if '/' in tail {
      var k := FirstSlash(tail);
      var head, rest := tail[..k], tail[k + 1..];
      assert authority + tail == (authority + head) + "/" + rest;
      SplitAt(authority + head, "/", rest);
      assert authority + head == authority + "?" + head[1..];
      SplitAt(authority, "?", head[1..]);
    } else {
      NotFound(authority + tail, "/");
      assert authority + tail == authority + "?" + tail[1..];
      SplitAt(authority, "?", tail[1..]);
    }
  }

  lemma {:induction false} FirstSlash(s: string) returns (k: nat)
    requires '/' in s
    ensures k < |s| && s[k] == '/' && '/' !in s[..k]
    ensures s[0] != '/' ==> k > 0
  {
    if s[0] == '/' {
      k := 0;
    } else {
      k := FirstSlash(s[1..]);
      assert s[..k + 1] == [s[0]] + s[1..][..k];
      k := k + 1;
    }
  }

  lemma HostOfUrl(u: Url)
    requires WellFormed(u)
    ensures UrlScheme(Compose(u)) == u.scheme
    ensures UrlHost(Compose(u)) == Authority(u)
    ensures Captured(UrlHost(Compose(u))) == Authority(u) && Captured(UrlScheme(Compose(u))) == u.scheme
  {
    SplitAt(u.scheme, "://", Authority(u) + Tail(u));
    AuthorityIsClean(u);
    CutTail(Authority(u), Tail(u));
  }

  lemma HostPortOfAuthority(u: Url)
    requires WellFormed(u)
    ensures AfterLast(Authority(u), '@') == HostPort(u)
  {
    AuthorityIsClean(u);
    if u.user.Some? {
      assert Authority(u) == u.user.value + ['@'] + HostPort(u);
      AfterLastOf(u.user.value, '@', HostPort(u));
    } else {
      assert Authority(u) == HostPort(u);
    }
  }

  lemma SplitHostPort(u: Url)
    requires WellFormed(u)
    ensures Before(HostPort(u), ":") == u.host
    ensures ':' in HostPort(u) <==> u.port.Some?
    ensures u.port.Some? ==> AfterLast(HostPort(u), ':') == u.port.value
  {
    if u.port.Some? {
      assert HostPort(u) == u.host + ":" + u.port.value;
      SplitAt(u.host, ":", u.port.value);
      assert HostPort(u)[|u.host|] == ':';
      AfterLastOf(u.host, ':', u.port.value);
    } else {
      assert HostPort(u) == u.host;
      NotFound(u.host, ":");
    }
  }

  /** Extraction inverts composition: the scheme, the host name, and the port or the
      scheme's default port. */
  lemma UrlReadsBack(u: Url)
    requires WellFormed(u)
    ensures UrlScheme(Compose(u)) == u.scheme
    ensures UrlHostname(Compose(u)) == u.host
    ensures u.port.Some? ==> UrlPort(Compose(u)) == u.port.value
    ensures u.port.None? ==>
      var port := UrlPort(Compose(u));
      && (u.scheme == "https" ==> port == "443")
      && (u.scheme == "http" ==> port == "80")
      && (u.scheme == "postgres" || u.scheme == "postgresql" ==> port == "5432")
      && (u.scheme == "nats" ==> port == "4222")
      && (u.scheme !in {"https", "http", "postgres", "postgresql", "nats"} ==> port == "")
  {
    hide UrlScheme, UrlHost, Captured, Compose, WellFormed, AfterLast, Before, HostPort, Authority;
    HostOfUrl(u);
    HostPortOfAuthority(u);
    SplitHostPort(u);
  }

  // ----- The env file

  /** The shell variables that are set, with their values. */
  type Env = map<string, string>

  /** The loader's own variables hide any others of these names while it runs. */
  const LOCALS: set<string> := {"file", "line", "key", "value"}

  predicate IsNameChar(c: char) {
    'A' <= c <= 'Z' || 'a' <= c <= 'z' || '0' <= c <= '9' || c == '_'
  }

  /** The keys the loader's filter lets pass. */
  predicate IsName(s: string) {
    s != [] && forall i :: 0 <= i < |s| ==> IsNameChar(s[i])
  }

  /** The keys the shell takes for names of variables. */
  predicate IsVariable(s: string) {
    IsName(s) && !IsDigit(s[0])
  }

  /** `tr -d '[:space:]'` */
  function DeleteSpace(s: string): string {
    if s == [] then [] else (if IsSpace(s[0]) then [] else [s[0]]) + DeleteSpace(s[1..])
  }

  predicate Quoted(value: string, quote: char) {
    |value| >= 2 && value[0] == quote && value[|value| - 1] == quote
  }

  /** One layer of matching quotes. */
  function Unquote(value: string): string {
    if Quoted(value, '"') || Quoted(value, '\'') then value[1..|value| - 1] else value
  }

  /** What a line assigns, if anything. */
  function ParseLine(line: string): Option<(string, string)> {
    if line == "" || line[0] == '#' || '=' !in line then None
    else
      var raw := Before(line, "=");
      var key := DeleteSpace(if "export " <= raw then raw[7..] else raw);
      if !IsName(key) then None else Some((key, Unquote(After(line, "="))))
  }

  /** Where the environment stands; the shell abandons the loader at a failing expansion. */
  datatype Loading = Completed(env: Env) | Abandoned(env: Env)

  /** An existing variable wins over the file, and so does a local one of the loader. A
      positional parameter is set already or cannot be assigned. Any other key makes the
      test whether it is set fail. */
  function Bind(env: Env, key: string, value: string): Loading
    requires IsName(key)
  {
    if IsVariable(key) then Completed(if key in env || key in LOCALS then env else env[key := value])
    else if AllDigits(key) then Completed(env)
    else Abandoned(env)
  }

  function LoadLine(env: Env, line: string): Loading {
    match ParseLine(line)
    case None => Completed(env)
    case Some((key, value)) => Bind(env, key, value)
  }

  /** What stands behind the first line, if it ends in a newline. */
  function NextLines(text: string): (rest: string)
    ensures text != [] ==> |rest| < |text|
  {
    var n := Find(text, "\n");
    if n < 0 then [] else text[n + 1..]
  }

  /** The file's lines one after another; the last one needs no newline. */
  function LoadText(env: Env, text: string): Loading
    decreases |text|, 0
  {
    if text == [] then Completed(env) else Continue(LoadLine(env, Before(text, "\n")), NextLines(text))
  }

  function Continue(loading: Loading, rest: string): Loading
    decreases |rest|, 1
  {
    if loading.Completed? then LoadText(loading.env, rest) else loading
  }

  lemma LoadTurn(env: Env, text: string)
    requires text != []
    ensures LoadText(env, text) == Continue(LoadLine(env, Before(text, "\n")), NextLines(text))
  {
  }

  lemma LoadNothing(env: Env)
    ensures LoadText(env, []) == Completed(env)
  {
  }

  method LoadEnv(text: string, existing: Env) returns (env: Env, completed: bool)
    ensures LoadText(existing, text) == if completed then Completed(env) else Abandoned(env)
    ensures forall key :: key in existing ==> key in env && env[key] == existing[key]
  {
    hide LoadText, Before, After, NextLines, DeleteSpace, IsName, AllDigits;
    env := existing;
    var rest := text;
    while rest != []
      invariant LoadText(env, rest) == LoadText(existing, text)
      invariant forall key :: key in existing ==> key in env && env[key] == existing[key]
      decreases |rest|
    {
      LoadTurn(env, rest);
      var line := Before(rest, "\n");
      rest := NextLines(rest);
      if line == "" || line[0] == '#' {
        continue;
      }
      if '=' !in line {
        continue;
      }
      var key := Before(line, "=");
      var value := After(line, "=");
      if "export " <= key {
        key := key[7..];
      }
      key := DeleteSpace(key);
      if !IsName(key) {
        continue;
      }
      if Quoted(value, '"') || Quoted(value, '\'') {
        value := value[1..|value| - 1];
      }
      if !IsVariable(key) {
        if AllDigits(key) {
          continue;
        }
        return env, false;
      }
      if key !in env && key !in LOCALS {
        env := env[key := value];
      }
    }
    LoadNothing(env);
    completed := true;
  }

  /** A newline at the end of the file makes no difference. */
  lemma {:induction false} LastNewlineIsOptional(env: Env, text: string)
    ensures LoadText(env, text + "\n") == LoadText(env, text)
    decreases |text|
  {
    hide LoadText, LoadLine, Find;
    if '\n' in text {
      var line, rest := Before(text, "\n"), NextLines(text);
      SplitFirstLine(text);
      assert text + "\n" == line + "\n" + (rest + "\n");
      FirstLineOf(line, rest);
      FirstLineOf(line, rest + "\n");
      LoadTurn(env, text);
      LoadTurn(env, text + "\n");
      var loading := LoadLine(env, line);
      if loading.Completed? {
        LastNewlineIsOptional(loading.env, rest);
      }
    } else {
      assert text + "\n" == text + "\n" + "";
      FirstLineOf(text, "");
      LoadTurn(env, text + "\n");
      OnlyLine(env, text);
    }
  }

  lemma SplitFirstLine(text: string)
    requires '\n' in text
    ensures var line := Before(text, "\n"); '\n' !in line && text == line + "\n" + NextLines(text)
  {
    var i := FirstNewline(text);
    assert text == text[..i] + "\n" + text[i + 1..];
    FindBehind(text[..i], "\n", text[i + 1..]);
  }

  lemma {:induction false} FirstNewline(text: string) returns (i: nat)
    requires '\n' in text
    ensures i < |text| && text[i] == '\n' && '\n' !in text[..i]
  {
    if text[0] == '\n' {
      i := 0;
    } else {
      i := FirstNewline(text[1..]);
      assert text[..i + 1] == [text[0]] + text[1..][..i];
      i := i + 1;
    }
  }

  lemma OnlyLine(env: Env, text: string)
    requires '\n' !in text
    ensures LoadText(env, text) == Continue(LoadLine(env, text), "")
  {
    if text != [] {
      NotFound(text, "\n");
      LoadTurn(env, text);
      NothingBehind(text);
    } else {
      LoadNothing(env);
    }
  }

  lemma {:induction false} NothingBehind(text: string)
    requires '\n' !in text
    ensures Find(text, "\n") == -1
  {
    if text != [] {
      assert text[0] != '\n';
      NothingBehind(text[1..]);
    }
  }

  // ----- Files line by line

  datatype Quotes = Bare | Single | Double

  /** The lines of a file, the last two kinds being those that assign nothing. */
  datatype Line =
    | Assign(exported: bool, lead: string, key: string, trail: string, quotes: Quotes, value: string)
    | Comment(text: string)
    | NoAssignment(text: string)                // blank lines among them
    | NoName(key: string, value: string)        // what stands before the "=" is no name

  predicate Blank(s: string) {
    forall i :: 0 <= i < |s| ==> IsSpace(s[i]) && s[i] != '\n'
  }

  /** A value in a pair of equal quotes: it cannot be written bare. */
  predicate Enclosed(value: string) {
    |value| >= 2 && value[0] == value[|value| - 1] && (value[0] == '"' || value[0] == '\'')
  }

  /** `s` holds a character that neither a name nor white space has. */
  ghost predicate HasStranger(s: string) {
    exists i :: 0 <= i < |s| && !IsSpace(s[i]) && !IsNameChar(s[i])
  }

  /** The key may have white space around it, unless that makes it the word "export". */
  ghost predicate ValidLine(l: Line) {
    match l
    case Assign(exported, lead, key, trail, quotes, value) =>
      && IsName(key) && Blank(lead) && Blank(trail)
      && '\n' !in value
      && (quotes.Bare? ==> !Enclosed(value))
      && (!exported && lead == "" && key == "export" ==> !(" " <= trail))
    case Comment(text) => '\n' !in text
    case NoAssignment(text) => '\n' !in text && '=' !in text
    case NoName(key, value) =>
      && '\n' !in key && '=' !in key && '\n' !in value
      && (Blank(key) || HasStranger(key) || ("export " <= key && Blank(key[7..])))
  }

  function Written(quotes: Quotes, value: string): string {
    match quotes
    case Bare => value
    case Single => "'" + value + "'"
    case Double => "\"" + value + "\""
  }

  function PrintKey(l: Line): string
    requires l.Assign?
  {
    (if l.exported then "export " else "") + (l.lead + l.key + l.trail)
  }

  function PrintLine(l: Line): string {
    match l
    case Assign(_, _, _, _, quotes, value) => PrintKey(l) + "=" + Written(quotes, value)
    case Comment(text) => "#" + text
    case NoAssignment(text) => text
    case NoName(key, value) => key + "=" + value
  }

  function PrintFile(lines: seq<Line>): string {
    if lines == [] then [] else PrintLine(lines[0]) + "\n" + PrintFile(lines[1..])
  }

  /** The value the first assignment of `key` gives it. */
  function FirstValue(lines: seq<Line>, key: string): Option<string> {
    if lines == [] then None
    else if lines[0].Assign? && lines[0].key == key then Some(lines[0].value)
    else FirstValue(lines[1..], key)
  }

  // ----- Reading a line back

  /** The characters of names. */
  lemma NameCharacters(c: char)
    ensures IsNameChar(c) <==>
      c == '_' || 48 <= c as int <= 57 || 65 <= c as int <= 90 || 97 <= c as int <= 122
  {
  }

  lemma {:induction false} DeleteSpaceConcat(a: string, b: string)
    ensures DeleteSpace(a + b) == DeleteSpace(a) + DeleteSpace(b)
  {
    if a == [] {
      assert a + b == b;
    } else {
      assert (a + b)[1..] == a[1..] + b;
      DeleteSpaceConcat(a[1..], b);
      Assoc(if IsSpace(a[0]) then [] else [a[0]], DeleteSpace(a[1..]), DeleteSpace(b));
    }
  }

  lemma {:induction false} DeleteBlank(s: string)
    requires Blank(s)
    ensures DeleteSpace(s) == ""
  {
    if s != [] {
      DeleteBlank(s[1..]);
    }
  }

  lemma {:induction false} NamesKeepTheirCharacters(s: string)
    requires forall i :: 0 <= i < |s| ==> IsNameChar(s[i])
    ensures DeleteSpace(s) == s
  {
    if s != [] {
      NamesKeepTheirCharacters(s[1..]);
    }
  }

  lemma {:induction false} StrangersStay(s: string, i: nat)
    requires i < |s| && !IsSpace(s[i])
    ensures s[i] in DeleteSpace(s)
  {
    if i > 0 {
      StrangersStay(s[1..], i - 1);
    }
  }

  lemma SpacedName(lead: string, key: string, trail: string)
    requires Blank(lead) && Blank(trail) && IsName(key)
    ensures DeleteSpace(lead + key + trail) == key
  {
    DeleteSpaceConcat(lead + key, trail);
    DeleteSpaceConcat(lead, key);
    DeleteBlank(lead);
    DeleteBlank(trail);
    NamesKeepTheirCharacters(key);
    AppendNothing(key);
  }

  /** A name with white space around it is neither a comment nor cut by a delimiter. */
  lemma SpacedNameIsClean(lead: string, key: string, trail: string)
    requires Blank(lead) && Blank(trail) && IsName(key)
    ensures var text := lead + key + trail;
      '=' !in text && '\n' !in text && text != [] && text[0] != '#'
  {
    var text := lead + key + trail;
    assert text[|lead|] == key[0] && IsNameChar(key[0]);
    forall i | 0 <= i < |text| ensures text[i] != '=' && text[i] != '\n' && text[i] != '#' {
      if i < |lead| {
        assert text[i] == lead[i];
      } else if i < |lead| + |key| {
        assert text[i] == key[i - |lead|];
      } else {
        assert text[i] == trail[i - |lead| - |key|];
      }
    }
  }

  /** Where the word "export " can only come from. */
  lemma SpacedIsNoExport(lead: string, key: string, trail: string)
    requires Blank(lead) && Blank(trail) && IsName(key)
    requires lead != "" || key != "export" || !(" " <= trail)
    ensures !("export " <= lead + key + trail)
  {
    var text := lead + key + trail;
    if lead != [] {
      assert text[0] == lead[0];
    } else {
      assert text == key + trail;
      if |key| > 6 {
        assert text[6] == key[6] && IsNameChar(key[6]);
      } else if |key| < 6 {
        assert trail != [] ==> text[|key|] == trail[0];
      } else {
        assert text[..6] == key;
        assert trail != [] ==> text[6] == trail[0];
        if "export " <= text {
          ExportPrefix(text);
        }
      }
    }
  }

  lemma ExportPrefix(text: string)
    requires "export " <= text
    ensures |text| >= 7 && text[..6] == "export" && text[6] == ' '
  {
    assert text[..6] == "export "[..6];
  }

  lemma KeyReadsBack(l: Line)
    requires l.Assign? && ValidLine(l)
    ensures var raw := PrintKey(l);
      && '=' !in raw && '\n' !in raw && raw != [] && raw[0] != '#'
      && DeleteSpace(if "export " <= raw then raw[7..] else raw) == l.key
  {
    hide IsName, Blank, DeleteSpace;
    SpacedName(l.lead, l.key, l.trail);
    SpacedNameIsClean(l.lead, l.key, l.trail);
    var text := l.lead + l.key + l.trail;
    if l.exported {
      assert ("export " + text)[7..] == text;
    } else {
      SpacedIsNoExport(l.lead, l.key, l.trail);
      AppendNothing(text);
    }
  }

  lemma QuotesComeOff(quotes: Quotes, value: string)
    requires quotes.Bare? ==> !Enclosed(value)
    ensures Unquote(Written(quotes, value)) == value
    ensures '\n' !in value ==> '\n' !in Written(quotes, value)
  {
    var written := Written(quotes, value);
    if !quotes.Bare? {
      assert written[1..|written| - 1] == value;
    }
  }

  lemma AssignReadsBack(l: Line)
    requires l.Assign? && ValidLine(l)
    ensures ParseLine(PrintLine(l)) == Some((l.key, l.value)) && '\n' !in PrintLine(l)
  {
    hide Before, After, DeleteSpace, Unquote, Written, PrintKey, Blank;
    var raw, written := PrintKey(l), Written(l.quotes, l.value);
    KeyReadsBack(l);
    QuotesComeOff(l.quotes, l.value);
    SplitAt(raw, "=", written);
    var text := raw + "=" + written;
    assert text[0] == raw[0] && text[|raw|] == '=';
  }

  lemma StrangersSpoil(raw: string)
    requires HasStranger(raw)
    ensures !IsName(DeleteSpace(if "export " <= raw then raw[7..] else raw))
  {
    var i: nat :| i < |raw| && !IsSpace(raw[i]) && !IsNameChar(raw[i]);
    var rest := if "export " <= raw then raw[7..] else raw;
    if "export " <= raw {
      assert "export "[0] == 'e' && "export "[1] == 'x' && "export "[2] == 'p' && "export "[3] == 'o'
        && "export "[4] == 'r' && "export "[5] == 't' && "export "[6] == ' ';
      assert i >= 7 && rest[i - 7] == raw[i];
    }
    var k: nat := i - (|raw| - |rest|);
    assert rest[k] == raw[i];
    StrangersStay(rest, k);
    var kept := DeleteSpace(rest);
    var j :| 0 <= j < |kept| && kept[j] == raw[i];
  }

  lemma NoNameReadsBack(key: string, value: string)
    requires ValidLine(NoName(key, value))
    ensures ParseLine(key + "=" + value) == None && '\n' !in key + "=" + value
  {
    hide Before, After, DeleteSpace, Unquote;
    SplitAt(key, "=", value);
    if HasStranger(key) {
      StrangersSpoil(key);
    } else if "export " <= key && Blank(key[7..]) {
      DeleteBlank(key[7..]);
    } else {
      DeleteBlank(key);
      assert "export "[0] == 'e';
    }
  }

  /** A line assigns exactly what it says, and nothing if it says nothing. */
  lemma LineReadsBack(l: Line)
    requires ValidLine(l)
    ensures ParseLine(PrintLine(l)) == if l.Assign? then Some((l.key, l.value)) else None
    ensures '\n' !in PrintLine(l)
  {
    match l
    case Assign(_, _, _, _, _, _) => AssignReadsBack(l);
    case Comment(text) => assert PrintLine(l)[0] == '#';
    case NoAssignment(text) =>
    case NoName(key, value) => NoNameReadsBack(key, value);
  }

  // ----- Reading a file back

  lemma FirstLineOf(line: string, rest: string)
    requires '\n' !in line
    ensures var text := line + "\n" + rest; Before(text, "\n") == line && NextLines(text) == rest
  {
    FindBehind(line, "\n", rest);
    SplitAt(line, "\n", rest);
  }

  /** What the first line of a file does to the environment. */
  function LineDoes(env: Env, l: Line): Loading
    requires l.Assign? ==> IsName(l.key)
  {
    if l.Assign? then Bind(env, l.key, l.value) else Completed(env)
  }

  lemma LoadFirstOf(env: Env, l: Line, rest: string)
    requires ValidLine(l)
    ensures LoadText(env, PrintLine(l) + "\n" + rest) == Continue(LineDoes(env, l), rest)
  {
    hide LoadText, ParseLine, PrintLine, Bind, Find, Before, NextLines;
    var line := PrintLine(l);
    LineReadsBack(l);
    FirstLineOf(line, rest);
    LoadTurn(env, line + "\n" + rest);
  }

  /** The keys the loader can assign. */
  predicate Assignable(key: string) {
    IsVariable(key) && key !in LOCALS
  }

  /** The lines before the first key at which the shell abandons the loader. */
  function Reached(lines: seq<Line>): seq<Line> {
    if lines == [] || (lines[0].Assign? && !IsVariable(lines[0].key) && !AllDigits(lines[0].key)) then []
    else [lines[0]] + Reached(lines[1..])
  }

  /** `env'` keeps `env` and gives each other key that may be bound its first value. */
  ghost predicate ExtendedBy(env: Env, lines: seq<Line>, bindable: string -> bool, env': Env) {
    forall key ::
      if key in env then key in env' && env'[key] == env[key]
      else if bindable(key) && FirstValue(lines, key).Some? then
        key in env' && env'[key] == FirstValue(lines, key).value
      else key !in env'
  }

  lemma FirstValueCons(l: Line, lines: seq<Line>, key: string)
    ensures FirstValue([l] + lines, key) ==
      if l.Assign? && l.key == key then Some(l.value) else FirstValue(lines, key)
  {
    assert ([l] + lines)[1..] == lines;
  }

  /** A first line extends what the others extend. */
  lemma FirstExtends(env: Env, l: Line, lines: seq<Line>, env': Env)
    requires ValidLine(l) && LineDoes(env, l).Completed?
    requires ExtendedBy(LineDoes(env, l).env, lines, Assignable, env')
    ensures ExtendedBy(env, [l] + lines, Assignable, env')
  {
    hide FirstValue, IsName;
    forall key ensures FirstValue([l] + lines, key) ==
        if l.Assign? && l.key == key then Some(l.value) else FirstValue(lines, key)
    {
      FirstValueCons(l, lines, key);
    }
  }

  lemma NothingExtends(env: Env)
    ensures ExtendedBy(env, [], Assignable, env)
  {
  }

  ghost predicate AllValid(lines: seq<Line>) {
    forall i :: 0 <= i < |lines| ==> ValidLine(lines[i])
  }

  /** What loading a file of such lines does, its values bare or quoted, its keys exported or spaced, with
      comments and other lines between: it stops at the first key the shell cannot read, and up
      to there it gives every unbound key that is a variable and no local of the loader its
      first value. */
  lemma {:induction false} EnvOutcome(env: Env, lines: seq<Line>)
    requires AllValid(lines)
    ensures var r := LoadText(env, PrintFile(lines));
      && ExtendedBy(env, Reached(lines), Assignable, r.env)
      && (r.Completed? <==> Reached(lines) == lines)
    decreases |lines|
  {
    hide LoadText, PrintLine, ExtendedBy, IsName;
    LoadNothing(env);
    NothingExtends(env);
    if lines != [] {
      var l := lines[0];
      assert ValidLine(l);
      LoadFirstOf(env, l, PrintFile(lines[1..]));
      var loading := LineDoes(env, l);
      if loading.Completed? {
        EnvOutcome(loading.env, lines[1..]);
        FirstExtends(env, l, Reached(lines[1..]), LoadText(loading.env, PrintFile(lines[1..])).env);
        assert lines == [l] + lines[1..];
      }
    }
  }

  lemma {:induction false} AllReached(lines: seq<Line>)
    requires forall i :: 0 <= i < |lines| && lines[i].Assign? ==> IsVariable(lines[i].key)
    ensures Reached(lines) == lines
  {
    if lines != [] {
      AllReached(lines[1..]);
    }
  }

  lemma {:induction false} FirstValueExists(lines: seq<Line>, i: nat)
    requires i < |lines| && lines[i].Assign?
    ensures FirstValue(lines, lines[i].key).Some?
  {
    if i > 0 {
      FirstValueExists(lines[1..], i - 1);
    }
  }

  lemma {:induction false} FirstValueFrom(lines: seq<Line>, key: string)
    requires FirstValue(lines, key).Some?
    ensures exists i :: 0 <= i < |lines| && lines[i].Assign? && lines[i].key == key
  {
    if !(lines[0].Assign? && lines[0].key == key) {
      FirstValueFrom(lines[1..], key);
      var i :| 0 <= i < |lines[1..]| && lines[1..][i].Assign? && lines[1..][i].key == key;
      assert lines[i + 1].key == key;
    }
  }

  predicate StartsWithDigit(key: string) {
    key != "" && '0' <= key[0] <= '9'
  }

  /** Loading a file keeps every existing variable and gives each other key the value of its
      first assignment, exactly if every key that is not bound yet starts with no digit and is
      none of the loader's own variables. */
  lemma EnvReadsBack(env: Env, lines: seq<Line>)
    requires forall key :: key in env ==> IsVariable(key)
    requires AllValid(lines)
    ensures var r := LoadText(env, PrintFile(lines));
      r.Completed? && ExtendedBy(env, lines, _ => true, r.env)
      <==> forall i :: 0 <= i < |lines| && lines[i].Assign? && lines[i].key !in env ==>
             !StartsWithDigit(lines[i].key) && lines[i].key !in {"file", "line", "key", "value"}
  {
    hide LoadText, IsVariable, ExtendedBy, ValidLine;
    var r := LoadText(env, PrintFile(lines));
    EnvOutcome(env, lines);
    forall i | 0 <= i < |lines| && lines[i].Assign?
      ensures Assignable(lines[i].key) <==>
        !StartsWithDigit(lines[i].key) && lines[i].key !in {"file", "line", "key", "value"}
    {
      assert ValidLine(lines[i]);
      AssignableInWords(lines[i]);
    }
    if forall i :: 0 <= i < |lines| && lines[i].Assign? && lines[i].key !in env ==> Assignable(lines[i].key) {
      AllReached(lines);
      AllBound(env, lines, r.env);
    } else {
      var i: nat :| i < |lines| && lines[i].Assign? && lines[i].key !in env && !Assignable(lines[i].key);
      NotAllBound(env, lines, i, r.env);
    }
  }

  lemma AssignableInWords(l: Line)
    requires l.Assign? && ValidLine(l)
    ensures Assignable(l.key) <==> !StartsWithDigit(l.key) && l.key !in {"file", "line", "key", "value"}
  {
  }

  lemma AllBound(env: Env, lines: seq<Line>, env': Env)
    requires forall i :: 0 <= i < |lines| && lines[i].Assign? && lines[i].key !in env ==> Assignable(lines[i].key)
    requires ExtendedBy(env, lines, Assignable, env')
    ensures ExtendedBy(env, lines, _ => true, env')
  {
    hide Assignable;
    forall key | key !in env && FirstValue(lines, key).Some? ensures Assignable(key) {
      FirstValueFrom(lines, key);
    }
  }

  lemma NotAllBound(env: Env, lines: seq<Line>, i: nat, env': Env)
    requires i < |lines| && lines[i].Assign? && lines[i].key !in env && !Assignable(lines[i].key)
    requires ExtendedBy(env, Reached(lines), Assignable, env')
    ensures !ExtendedBy(env, lines, _ => true, env')
  {
    hide Assignable;
    FirstValueExists(lines, i);
  }

  /** A key named like a local variable of the loader is never bound. */
  lemma LocalNamesAreLost()
    ensures LoadText(map[], "value=\"x\"\n") == Completed(map[])
  {
    var l := Assign(false, "", "value", "", Double, "x");
    hide LoadText;
    LoadFirstOf(map[], l, "");
    LoadNothing(map[]);
    assert PrintLine(l) + "\n" + "" == "value=\"x\"\n";
  }

  /** A key that starts with a digit takes every line behind it along. */
  lemma DigitsStopTheLoader()
    ensures LoadText(map[], "1A=x\nB=y\n") == Abandoned(map[])
  {
    var l := Assign(false, "", "1A", "", Bare, "x");
    hide LoadText;
    LoadFirstOf(map[], l, "B=y\n");
    assert PrintLine(l) + "\n" + "B=y\n" == "1A=x\nB=y\n";
    assert "1A"[1] == 'A';
  }
}
