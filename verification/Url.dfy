/** URLs as the parser sees them: text between delimiters, each part present or not. */
module UrlSpec {
  import opened Wrappers

  datatype Error = NoUrlCharacter | InvalidSchemeName | NoDoubleSlash | NoAtSign | NoSlash

  datatype Result<T> = Ok(value: T) | Err(error: Error)

  /** What follows the host and port. */
  datatype Tail = Tail(path: Option<string>, query: Option<string>, fragment: Option<string>)

  datatype Place = Place(host: string, port: Option<string>, tail: Tail)

  datatype Login = Login(user: string, password: Option<string>)

  datatype Url = Url(scheme: string, login: Option<Login>, place: Place)

  // ---------------------------------------------------------------- printing

  function Prefixed(c: char, part: Option<string>): (r: string) {
    match part
    case None => ""
    case Some(text) => [c] + text
  }

  function PrintTail(t: Tail): (r: string) {
    Prefixed('/', t.path) + Prefixed('?', t.query) + Prefixed('#', t.fragment)
  }

  function PrintPlace(p: Place): (r: string) {
    p.host + Prefixed(':', p.port) + PrintTail(p.tail)
  }

  function PrintLogin(l: Option<Login>): (r: string) {
    match l
    case None => ""
    case Some(login) => login.user + Prefixed(':', login.password) + "@"
  }

  function Print(u: Url): (r: string) {
    u.scheme + "://" + PrintLogin(u.login) + PrintPlace(u.place)
  }

  // ---------------------------------------------------------------- well-formed parts

  predicate Avoids(s: string, stops: set<char>) {
    forall i :: 0 <= i < |s| ==> s[i] !in stops
  }

  predicate Free(part: Option<string>, stops: set<char>) {
    part.Some? ==> Avoids(part.value, stops)
  }

  predicate WellFormedTail(t: Tail) {
    && Free(t.path, {'#', '?'}) && Free(t.query, {'#'})
    && (t.path.None? ==> t.query.None? && t.fragment.None?)
  }

  /** A bracketed host ends at its first closing bracket; without one it is the last part of the URL. */
  predicate WellFormedHost(host: string, last: bool) {
    if Starts(host, '[') then
      if Avoids(host, {']'}) then last
      else host[|host| - 1] == ']' && Avoids(host[..|host| - 1], {']'})
    else Avoids(host, {':', '/'})
  }

  predicate WellFormedPlace(p: Place) {
    && WellFormedTail(p.tail) && Free(p.port, {'/'})
    && WellFormedHost(p.host, p.port.None? && p.tail.path.None?)
  }

  /** Without a login no `@` stands before the first slash. */
  predicate WellFormed(u: Url) {
    && IsScheme(u.scheme)
    && WellFormedPlace(u.place)
    && match u.login
       case None => !FirstIs(PrintPlace(u.place), '@', {'@', '/'})
       case Some(l) => Avoids(l.user, {':', '@', '/'}) && Free(l.password, {'@', '/'})
  }

  predicate IsScheme(s: string) {
    forall i :: 0 <= i < |s| ==> 'a' <= s[i] <= 'z' || 'A' <= s[i] <= 'Z' || s[i] in {'+', '-', '.'}
  }

  // ---------------------------------------------------------------- parsing

  /** The length of the part before the first stop character. */
  function Until(s: string, stops: set<char>): (n: nat)
    ensures n <= |s| && Avoids(s[..n], stops)
    ensures n < |s| ==> s[n] in stops
  {
    if s == "" || s[0] in stops then 0 else 1 + Until(s[1..], stops)
  }

  predicate FirstIs(s: string, c: char, stops: set<char>) {
    var n := Until(s, stops);
    n < |s| && s[n] == c
  }

  predicate Starts(s: string, c: char) {
    s != "" && s[0] == c
  }

  /** A part introduced by `c` and ended by a stop character, and the text after it. */
  function Part(s: string, c: char, stops: set<char>): (r: (Option<string>, string)) {
    if !Starts(s, c) then (None, s)
    else
      var n := Until(s[1..], stops);
      (Some(s[1..][..n]), s[1..][n..])
  }

  function ParseTail(s: string): (r: Result<Tail>) {
    if s == "" then Ok(Tail(None, None, None))
    else if s[0] != '/' then Err(NoSlash)
    else
      var (path, s1) := Part(s, '/', {'#', '?'});
      var (query, s2) := Part(s1, '?', {'#'});
      var (fragment, s3) := Part(s2, '#', {});
      Ok(Tail(path, query, fragment))
  }

  function HostLength(s: string): (n: nat)
    ensures n <= |s|
  {
    if Starts(s, '[') then
      var n := Until(s, {']'});
      if n < |s| then n + 1 else n
    else Until(s, {':', '/'})
  }

  function ParsePlace(s: string): (r: Result<Place>) {
    var n := HostLength(s);
    var (port, rest) := Part(s[n..], ':', {'/'});
    match ParseTail(rest)
    case Err(e) => Err(e)
    case Ok(tail) => Ok(Place(s[..n], port, tail))
  }

  /** The login, if an `@` comes before any slash, and the text after the `@`. */
  function ParseLogin(s: string): (r: Result<(Option<Login>, string)>) {
    if !FirstIs(s, '@', {'@', '/'}) then Ok((None, s))
    else
      var n := Until(s, {':', '@'});
      var (password, rest) := Part(s[n..], ':', {'@'});
      if !Starts(rest, '@') then Err(NoAtSign)
      else Ok((Some(Login(s[..n], password)), rest[1..]))
  }

  function Parse(s: string): (r: Result<Url>) {
    var n := Until(s, {':'});
    if n == |s| then Err(NoUrlCharacter)
    else if !IsScheme(s[..n]) then Err(InvalidSchemeName)
    else
      var rest := s[n + 1..];
      if !("//" <= rest) then Err(NoDoubleSlash)
      else match ParseLogin(rest[2..])
        case Err(e) => Err(e)
        case Ok((login, place)) =>
          match ParsePlace(place)
          case Err(e) => Err(e)
          case Ok(p) => Ok(Url(s[..n], login, p))
  }

  // ---------------------------------------------------------------- parsing inverts printing

  lemma {:induction false} UntilOf(a: string, b: string, stops: set<char>)
    requires Avoids(a, stops) && (b == "" || b[0] in stops)
    ensures Until(a + b, stops) == |a|
  {
    if a == "" {
      assert a + b == b;
    } else {
      assert (a + b)[1..] == a[1..] + b;
      UntilOf(a[1..], b, stops);
    }
  }

  /** A printed part reads back, when what follows starts with a stop character and not with the part's own. */
  lemma PartOf(part: Option<string>, rest: string, c: char, stops: set<char>)
    requires Free(part, stops) && (rest == "" || rest[0] in stops || part.None?)
    requires part.None? ==> !Starts(rest, c)
    ensures Part(Prefixed(c, part) + rest, c, stops) == (part, rest)
  {
    match part
    case None => assert Prefixed(c, part) + rest == rest;
    case Some(text) =>
      var s := Prefixed(c, part) + rest;
      assert s[1..] == text + rest;
      UntilOf(text, rest, stops);
  }

  /** The other way: a part and the text after it print to the text they came from. */
  lemma PartPrints(s: string, c: char, stops: set<char>)
    ensures var (part, rest) := Part(s, c, stops);
      && s == Prefixed(c, part) + rest
      && Free(part, stops)
      && (part.None? ==> rest == s && !Starts(s, c))
      && (part.Some? ==> rest == "" || rest[0] in stops)
  {
    if Starts(s, c) {
      var n := Until(s[1..], stops);
      assert s == [c] + s[1..];
      assert s[1..] == s[1..][..n] + s[1..][n..];
    }
  }

  lemma TailRoundTrip(t: Tail)
    requires WellFormedTail(t)
    ensures ParseTail(PrintTail(t)) == Ok(t)
  {
    hide Part, Avoids;
    if t.path.Some? {
      var f := Prefixed('#', t.fragment);
      var q := Prefixed('?', t.query) + f;
      assert PrintTail(t) == Prefixed('/', t.path) + q;
      PartOf(t.path, q, '/', {'#', '?'});
      PartOf(t.query, f, '?', {'#'});
      AvoidsNothing(t.fragment);
      PartOf(t.fragment, "", '#', {});
      assert f + "" == f;
    }
  }

  lemma AvoidsNothing(part: Option<string>)
    ensures Free(part, {})
  {
  }

  lemma TailPrints(s: string)
    requires ParseTail(s).Ok?
    ensures PrintTail(ParseTail(s).value) == s && WellFormedTail(ParseTail(s).value)
  {
    hide Part, Avoids;
    if s != "" {
      var (path, s1) := Part(s, '/', {'#', '?'});
      var (query, s2) := Part(s1, '?', {'#'});
      var (fragment, s3) := Part(s2, '#', {});
      PartPrints(s, '/', {'#', '?'});
      PartPrints(s1, '?', {'#'});
      PartPrints(s2, '#', {});
      assert s3 == "";
      assert s2 == Prefixed('#', fragment);
    }
  }

  /** What a host's printed continuation starts with. */
  lemma AfterHost(p: Place)
    requires WellFormedTail(p.tail)
    ensures var t := PrintTail(p.tail); t == "" || t[0] == '/'
    ensures var rest := Prefixed(':', p.port) + PrintTail(p.tail); rest == "" || rest[0] in {':', '/'}
    ensures p.port.None? && p.tail.path.None? ==> Prefixed(':', p.port) + PrintTail(p.tail) == ""
  {
  }

  lemma HostLengthOf(p: Place)
    requires WellFormedPlace(p)
    ensures HostLength(PrintPlace(p)) == |p.host|
  {
    var rest := Prefixed(':', p.port) + PrintTail(p.tail);
    AfterHost(p);
    assert PrintPlace(p) == p.host + rest;
    if !Starts(p.host, '[') {
      UntilOf(p.host, rest, {':', '/'});
    } else if Avoids(p.host, {']'}) {
      UntilOf(p.host, rest, {']'});
    } else {
      var n := |p.host| - 1;
      assert p.host + rest == p.host[..n] + ("]" + rest);
      UntilOf(p.host[..n], "]" + rest, {']'});
    }
  }

  lemma PlaceRoundTrip(p: Place)
    requires WellFormedPlace(p)
    ensures ParsePlace(PrintPlace(p)) == Ok(p)
  {
    hide Part, Avoids, HostLength, ParseTail, PrintTail, WellFormedTail;
    HostLengthOf(p);
    AfterHost(p);
    assert PrintPlace(p)[..|p.host|] == p.host;
    assert PrintPlace(p)[|p.host|..] == Prefixed(':', p.port) + PrintTail(p.tail);
    PartOf(p.port, PrintTail(p.tail), ':', {'/'});
    TailRoundTrip(p.tail);
  }

  lemma HostIsWellFormed(s: string)
    ensures WellFormedHost(s[..HostLength(s)], HostLength(s) == |s|)
  {
    if Starts(s, '[') {
      var n := Until(s, {']'});
      assert n > 0;
      if n < |s| {
        assert s[..n + 1][..n] == s[..n] && s[..n + 1][n] == ']';
      }
    }
  }

  lemma PlacePrints(s: string)
    requires ParsePlace(s).Ok?
    ensures PrintPlace(ParsePlace(s).value) == s && WellFormedPlace(ParsePlace(s).value)
  {
    hide Part, HostLength, ParseTail, PrintTail, WellFormedTail, WellFormedHost;
    var n := HostLength(s);
    var (port, rest) := Part(s[n..], ':', {'/'});
    PartPrints(s[n..], ':', {'/'});
    TailPrints(rest);
    var tail := ParseTail(rest).value;
    CutHost(s, n, Prefixed(':', port), PrintTail(tail));
    HostIsWellFormed(s);
    if n == |s| { NothingLeft(rest); } else { HostAnywhere(s[..n], port.None? && tail.path.None?); }
  }

  lemma HostAnywhere(host: string, last: bool)
    requires WellFormedHost(host, false)
    ensures WellFormedHost(host, last)
  {
  }

  lemma CutHost(s: string, n: nat, port: string, tail: string)
    requires n <= |s| && s[n..] == port + tail
    ensures s[..n] + port + tail == s
  {
    assert s == s[..n] + s[n..];
    assert s[..n] + port + tail == s[..n] + (port + tail);
  }

  lemma NothingLeft(s: string)
    requires s == ""
    ensures ParseTail(s) == Ok(Tail(None, None, None))
  {
  }

  /** The one way a host and what follows can be refused: text right after a closing bracket. */
  lemma PlaceRefused(s: string)
    ensures ParsePlace(s).Err? <==>
      Starts(s, '[') && var n := Until(s, {']'}); n + 1 < |s| && s[n + 1] !in {':', '/'}
  {
    hide Until;
    var n := HostLength(s);
    PartPrints(s[n..], ':', {'/'});
  }

  lemma AvoidsBoth(a: string, b: string, stops: set<char>)
    requires Avoids(a, stops) && Avoids(b, stops)
    ensures Avoids(a + b, stops)
  {
  }

  lemma LoginRoundTrip(l: Login, place: string)
    requires Avoids(l.user, {':', '@', '/'}) && Free(l.password, {'@', '/'})
    ensures ParseLogin(PrintLogin(Some(l)) + place) == Ok((Some(l), place))
  {
    var s := PrintLogin(Some(l)) + place;
    var p := Prefixed(':', l.password);
    var rest := "@" + place;
    assert s == (l.user + p) + rest;
    AvoidsBoth(l.user, p, {'@', '/'});
    UntilOf(l.user + p, rest, {'@', '/'});
    assert s == l.user + (p + rest);
    UntilOf(l.user, p + rest, {':', '@'});
    PartOf(l.password, rest, ':', {'@'});
    assert s[|l.user|..] == p + rest && s[..|l.user|] == l.user;
    assert rest[1..] == place;
  }

  /** Text without `@` and `/`, cut at its first colon, is a login. */
  lemma LoginOf(head: string) returns (l: Login)
    requires Avoids(head, {'@', '/'})
    ensures l.user + Prefixed(':', l.password) == head
    ensures Avoids(l.user, {':', '@', '/'}) && Free(l.password, {'@', '/'})
  {
    var n := Until(head, {':'});
    if n == |head| {
      l := Login(head, None);
      assert head == head[..n];
    } else {
      l := Login(head[..n], Some(head[n + 1..]));
      assert head == head[..n] + ([':'] + head[n + 1..]);
      assert forall i :: 0 <= i < n ==> head[..n][i] == head[i];
    }
  }

  /** An `@` seen ahead is always found again: parsing a login never fails. */
  lemma LoginPrints(s: string)
    ensures ParseLogin(s).Ok?
    ensures var (login, place) := ParseLogin(s).value;
      && PrintLogin(login) + place == s
      && match login
         case None => !FirstIs(place, '@', {'@', '/'})
         case Some(l) => Avoids(l.user, {':', '@', '/'}) && Free(l.password, {'@', '/'})
  {
    if FirstIs(s, '@', {'@', '/'}) {
      hide Avoids, Until, ParseLogin;
      var at := Until(s, {'@', '/'});
      var l := LoginOf(s[..at]);
      assert s == s[..at] + "@" + s[at + 1..];
      LoginRoundTrip(l, s[at + 1..]);
    }
  }

  // ---------------------------------------------------------------- the whole URL

  /** Every well-formed URL prints to a text that parses back to it. */
  lemma ParsePrint(u: Url)
    requires WellFormed(u)
    ensures Parse(Print(u)) == Ok(u)
  {
    hide ParseLogin, ParsePlace, PrintPlace, PrintLogin, WellFormedPlace, FirstIs, Avoids;
    var place := PrintPlace(u.place);
    var rest := PrintLogin(u.login) + place;
    SchemeFound(u.scheme, "//" + rest);
    assert Print(u) == u.scheme + (":" + ("//" + rest));
    assert Print(u)[|u.scheme| + 1..] == "//" + rest;
    assert ("//" + rest)[2..] == rest;
    PlaceRoundTrip(u.place);
    match u.login
    case None => NoLogin(place);
    case Some(l) => LoginRoundTrip(l, place);
  }

  lemma NoLogin(place: string)
    requires !FirstIs(place, '@', {'@', '/'})
    ensures PrintLogin(None) + place == place && ParseLogin(place) == Ok((None, place))
  {
  }

  lemma SchemeFound(scheme: string, rest: string)
    requires IsScheme(scheme)
    ensures Until(scheme + (":" + rest), {':'}) == |scheme|
  {
    UntilOf(scheme, ":" + rest, {':'});
  }

  /** Every text that parses is the print of a well-formed URL, the one it parses to. */
  lemma PrintParse(s: string)
    requires Parse(s).Ok?
    ensures Print(Parse(s).value) == s && WellFormed(Parse(s).value)
  {
    hide ParseLogin, ParsePlace, PrintPlace, PrintLogin, WellFormedPlace, FirstIs, Avoids;
    var n := Until(s, {':'});
    var rest := s[n + 1..][2..];
    LoginPrints(rest);
    var (login, place) := ParseLogin(rest).value;
    PlacePrints(place);
    CutScheme(s, n);
    assert s[..n] + "://" + (PrintLogin(login) + place) == s[..n] + "://" + PrintLogin(login) + place;
  }

  lemma CutScheme(s: string, n: nat)
    requires n < |s| && s[n] == ':' && "//" <= s[n + 1..]
    ensures s == s[..n] + "://" + s[n + 1..][2..]
  {
  }
}

/** The parser itself, which moves a pointer along a NUL-terminated string and fills in the fields of its result. */
module UrlParser {
  import opened Wrappers
  import opened UrlSpec
  import opened Numbers

  /** What a C string shows of a text: everything before the first NUL. */
  function Text(url: string): (s: string)
    ensures s <= url && Avoids(s, {'\0'})
  {
    url[..Until(url, {'\0'})]
  }

  function LowerCase(c: char): (r: char) {
    if 'A' <= c <= 'Z' then (c as int + 32) as char else c
  }

  function Lower(s: string): (r: string)
    ensures |r| == |s|
  {
    seq(|s|, i requires 0 <= i < |s| => LowerCase(s[i]))
  }

  /** The parser's result: a part that is absent reads as the empty string. */
  datatype Fields = Fields(
    scheme: string, user: string, password: string, host: string, port: string,
    path: string, query: string, fragment: string)

  function OrEmpty(part: Option<string>): (r: string) {
    if part.Some? then part.value else ""
  }

  function FieldsOf(u: Url): (f: Fields) {
    var (user, password) := if u.login.Some? then (u.login.value.user, OrEmpty(u.login.value.password)) else ("", "");
    var p := u.place;
    Fields(Lower(u.scheme), user, password, p.host, OrEmpty(p.port),
      OrEmpty(p.tail.path), OrEmpty(p.tail.query), OrEmpty(p.tail.fragment))
  }

  function Expected(s: string): (r: Result<Fields>) {
    match Parse(s)
    case Err(e) => Err(e)
    case Ok(u) => Ok(FieldsOf(u))
  }

  lemma UntilNext(s: string, p: nat, stops: set<char>)
    requires p < |s| && s[p] !in stops
    ensures Until(s[p..], stops) == 1 + Until(s[p + 1..], stops)
  {
    assert s[p..][1..] == s[p + 1..];
  }

  /** Advances a pointer to the next stop character or the end of the string. */
  method Skip(s: string, p: nat, stops: set<char>) returns (q: nat)
    requires p <= |s|
    ensures p <= q <= |s| && q == p + Until(s[p..], stops)
  {
    hide Until;
    q := p;
    while q < |s| && s[q] !in stops
      invariant p <= q <= |s|
      invariant p + Until(s[p..], stops) == q + Until(s[q..], stops)
    {
      UntilNext(s, q, stops);
      q := q + 1;
    }
    UntilStops(s[q..], stops);
  }

  lemma UntilStops(s: string, stops: set<char>)
    requires s == "" || s[0] in stops
    ensures Until(s, stops) == 0
  {
  }

  /** Whether an `@` comes before any slash. */
  method LooksForUser(s: string, p: nat) returns (has: bool)
    requires p <= |s|
    ensures has == FirstIs(s[p..], '@', {'@', '/'})
  {
    hide Until;
    var q := p;
    while q < |s|
      invariant p <= q <= |s|
      invariant p + Until(s[p..], {'@', '/'}) == q + Until(s[q..], {'@', '/'})
    {
      if s[q] == '@' || s[q] == '/' {
        UntilStops(s[q..], {'@', '/'});
        return s[q] == '@';
      }
      UntilNext(s, q, {'@', '/'});
      q := q + 1;
    }
    has := false;
  }

  /** The end of the host: past a closing bracket, or at a colon or slash. */
  method SkipHost(s: string, p: nat) returns (q: nat)
    requires p <= |s|
    ensures p <= q <= |s| && q == p + HostLength(s[p..])
  {
    hide Until;
    var bracket := p < |s| && s[p] == '[';
    ghost var stops := if bracket then {']'} else {':', '/'};
    q := p;
    while q < |s|
      invariant p <= q <= |s|
      invariant p + Until(s[p..], stops) == q + Until(s[q..], stops)
    {
      if bracket && s[q] == ']' {
        UntilStops(s[q..], stops);
        q := q + 1;
        return;
      } else if !bracket && (s[q] == ':' || s[q] == '/') {
        break;
      }
      UntilNext(s, q, stops);
      q := q + 1;
    }
    UntilStops(s[q..], stops);
  }

  /** A part introduced by `c`, from the pointer to the next stop; the pointer moves past it. */
  method ReadPart(s: string, p: nat, c: char, stops: set<char>) returns (part: string, q: nat)
    requires p <= |s|
    ensures p <= q <= |s|
    ensures Part(s[p..], c, stops).1 == s[q..] && OrEmpty(Part(s[p..], c, stops).0) == part
    ensures Part(s[p..], c, stops).0.Some? <==> Starts(s[p..], c)
  {
    hide Until;
    part, q := "", p;
    if p < |s| && s[p] == c {
      q := Skip(s, p + 1, stops);
      part := s[p + 1..q];
      assert s[p..][1..] == s[p + 1..];
    }
  }

  /** The user name and password before an `@`, if there are any. */
  method ReadLogin(s: string, p: nat) returns (ok: bool, user: string, password: string, q: nat)
    requires p <= |s|
    ensures p <= q <= |s|
    ensures ok <==> ParseLogin(s[p..]).Ok?
    ensures ok ==>
      var (login, place) := ParseLogin(s[p..]).value;
      && place == s[q..]
      && (if login.Some? then user == login.value.user && password == OrEmpty(login.value.password)
          else user == "" && password == "")
    ensures !ok ==> ParseLogin(s[p..]) == Err(NoAtSign)
  {
    hide Until, FirstIs, Part;
    ok, user, password, q := true, "", "", p;
    var has := LooksForUser(s, p);
    if has {
      q := Skip(s, p, {':', '@'});
      user := s[p..q];
      assert s[p..][q - p..] == s[q..];
      password, q := ReadPart(s, q, ':', {'@'});
      if !(q < |s| && s[q] == '@') {
        return false, user, password, q;
      }
      assert s[q..][1..] == s[q + 1..];
      q := q + 1;
    }
  }

  /** The host, port, path, query and fragment up to the end of the string. */
  method ReadPlace(s: string, p: nat)
    returns (ok: bool, host: string, port: string, path: string, query: string, fragment: string)
    requires p <= |s|
    ensures ok <==> ParsePlace(s[p..]).Ok?
    ensures ok ==>
      var place := ParsePlace(s[p..]).value;
      && host == place.host && port == OrEmpty(place.port) && path == OrEmpty(place.tail.path)
      && query == OrEmpty(place.tail.query) && fragment == OrEmpty(place.tail.fragment)
    ensures !ok ==> ParsePlace(s[p..]) == Err(NoSlash)
  {
    hide Until, Part, HostLength;
    ok, host, port, path, query, fragment := true, "", "", "", "", "";
    var q := SkipHost(s, p);
    host := s[p..q];
    assert s[p..][q - p..] == s[q..];
    port, q := ReadPart(s, q, ':', {'/'});
    if q == |s| { return; }
    if s[q] != '/' {
      ok := false;
      return;
    }
    path, q := ReadPart(s, q, '/', {'#', '?'});
    query, q := ReadPart(s, q, '?', {'#'});
    fragment, q := ReadPart(s, q, '#', {});
  }

  method IsSchemeValid(name: string) returns (valid: bool)
    ensures valid <==> IsScheme(name)
  {
    for i := 0 to |name|
      invariant IsScheme(name[..i])
    {
      var c := name[i];
      if !('a' <= c <= 'z' || 'A' <= c <= 'Z') && c != '+' && c != '-' && c != '.' {
        return false;
      }
    }
    assert name[..|name|] == name;
    return true;
  }

  /** `clParseURL::ParseURL`: fields filled in exactly as the parts of the text say. */
  method ParseURL(url: string) returns (r: Result<Fields>)
    ensures r == Expected(Text(url))
  {
    hide Until, ParseLogin, ParsePlace;
    var s := Text(url);
    assert s[0..] == s;
    var p := Skip(s, 0, {':'});
    if p == |s| { return Err(NoUrlCharacter); }
    var scheme := s[..p];
    var valid := IsSchemeValid(scheme);
    if !valid { return Err(InvalidSchemeName); }
    scheme := Lower(scheme);
    ghost var rest := s[p + 1..];
    p := p + 1;
    if p >= |s| || s[p] != '/' { return Err(NoDoubleSlash); }
    p := p + 1;
    if p >= |s| || s[p] != '/' { return Err(NoDoubleSlash); }
    p := p + 1;
    assert rest[2..] == s[p..];
    var ok, user, password, q := ReadLogin(s, p);
    if !ok { return Err(NoAtSign); }
    var ok2, host, port, path, query, fragment := ReadPlace(s, q);
    if !ok2 { return Err(NoSlash); }
    return Ok(Fields(scheme, user, password, host, port, path, query, fragment));
  }

  // ---------------------------------------------------------------- the address of a WebSocket URL

  function GetPort(f: Fields): (port: Option<int>)
    ensures port.Some? ==> 0 < port.value <= 65535
  {
    var n := Atoi(f.port);
    if n <= 0 || n > 65535 then None else Some(n)
  }

  datatype Target = Target(protocol: string, host: string, path: string, query: string, port: int)

  function DefaultPort(protocol: string): (port: Option<int>) {
    if protocol == "ws" || protocol == "http" then Some(80)
    else if protocol == "wss" || protocol == "https" then Some(443)
    else None
  }

  /** What a URL's parts say about where to connect. */
  ghost predicate TargetOf(f: Fields, t: Target) {
    && t.protocol == f.scheme && t.host == f.host && t.query == f.query
    && Some(t.port) == (if GetPort(f).Some? then GetPort(f) else DefaultPort(f.scheme))
    && t.path == (if Starts(f.path, '/') then "" else "/") + f.path + (if f.query == "" then "" else "?" + f.query)
  }

  /** `UrlParser::parse`. */
  method ParseTarget(url: string) returns (r: Option<Target>)
    ensures r.Some? <==>
      && Expected(Text(url)).Ok?
      && var f := Expected(Text(url)).value; GetPort(f).Some? || DefaultPort(f.scheme).Some?
    ensures r.Some? ==> TargetOf(Expected(Text(url)).value, r.value)
    ensures r.Some? ==> 1 <= r.value.port <= 65535 && Starts(r.value.path, '/')
  {
    hide Parse, Text, Atoi;
    var res := ParseURL(url);
    if res.Err? { return None; }
    var f := res.value;
    var protocol, host, path, query := f.scheme, f.host, f.path, f.query;
    var port := GetPort(f);
    if port.None? {
      if protocol == "ws" || protocol == "http" {
        port := Some(80);
      } else if protocol == "wss" || protocol == "https" {
        port := Some(443);
      } else {
        return None;
      }
    }
    if path == "" {
      path := "/";
    } else if path[0] != '/' {
      path := "/" + path;
    }
    if query != "" {
      path := path + "?";
      path := path + query;
    }
    return Some(Target(protocol, host, path, query, port.value));
  }

  /** The port of a printed URL is the port connected to, for every port number. */
  lemma PrintedPortIsUsed(u: Url, n: nat)
    requires WellFormed(u) && u.place.port == Some(Decimal(n)) && 1 <= n <= 65535
    ensures Expected(Print(u)).Ok? && GetPort(Expected(Print(u)).value) == Some(n)
  {
    ParsePrint(u);
    AtoiDecimal(n);
  }

  /** The characters of a scheme by their codes: letters, plus, minus and dot. */
  lemma SchemeCharacters(s: string)
    ensures IsScheme(s) <==>
            forall c :: c in s ==> 65 <= c as int <= 90 || 97 <= c as int <= 122 || c as int in {43, 45, 46}
  {
    assert forall i | 0 <= i < |s| :: s[i] in s;
    assert '+' as int == 43 && '-' as int == 45 && '.' as int == 46;
  }

  /** A name spelled in letters of either case. */
  predicate Spells(s: string, lower: string, upper: string) {
    |s| == |lower| == |upper| && forall i | 0 <= i < |s| :: s[i] == lower[i] || s[i] == upper[i]
  }

  lemma LowerSpells(s: string, lower: string, upper: string)
    requires |lower| == |upper|
    requires forall i | 0 <= i < |lower| :: 'a' <= lower[i] <= 'z' && upper[i] as int == lower[i] as int - 32
    ensures Lower(s) == lower <==> Spells(s, lower, upper)
  {
    if Lower(s) == lower {
      forall i | 0 <= i < |s|
        ensures s[i] == lower[i] || s[i] == upper[i]
      {
        assert LowerCase(s[i]) == lower[i];
      }
    }
    if Spells(s, lower, upper) {
      assert forall i | 0 <= i < |s| :: LowerCase(s[i]) == lower[i];
    }
  }

  /** The port of a URL that names none: 80 or 443, by its scheme in letters of either case, or none at all. */
  lemma SchemePicksPort(u: Url)
    requires WellFormed(u) && u.place.port.None?
    ensures Expected(Print(u)).Ok? && GetPort(Expected(Print(u)).value).None?
    ensures DefaultPort(Expected(Print(u)).value.scheme)
         == if Spells(u.scheme, "ws", "WS") || Spells(u.scheme, "http", "HTTP") then Some(80)
            else if Spells(u.scheme, "wss", "WSS") || Spells(u.scheme, "https", "HTTPS") then Some(443)
            else None
  {
    hide Print, Parse, Lower, Spells;
    ParsePrint(u);
    LowerSpells(u.scheme, "ws", "WS");
    LowerSpells(u.scheme, "http", "HTTP");
    LowerSpells(u.scheme, "wss", "WSS");
    LowerSpells(u.scheme, "https", "HTTPS");
  }

  lemma LowerLetters()
    ensures Lower("WSS") == "wss"
  {
    assert |Lower("WSS")| == 3 && Lower("WSS")[0] == 'w' && Lower("WSS")[1] == 's' && Lower("WSS")[2] == 's';
  }

  const SECURE := Url("WSS", None, Place("host", None, Tail(None, None, None)))

  lemma SecurePrint()
    ensures PrintPlace(SECURE.place) == "host" && Print(SECURE) == "WSS://host"
  {
  }

  lemma SecureWellFormed()
    ensures WellFormed(SECURE)
  {
    hide Print, PrintPlace, FirstIs;
    SecurePrint();
    NoAtIn("host");
  }

  /** "WSS://host" is port 443 of the host, and the path "/". */
  lemma SecureExample(t: Target)
    ensures Expected("WSS://host") == Ok(Fields("wss", "", "", "host", "", "", "", ""))
    ensures TargetOf(Expected("WSS://host").value, t) <==> t == Target("wss", "host", "/", "", 443)
  {
    hide Parse, Print, WellFormed, Lower;
    SecurePrint();
    SecureWellFormed();
    ParsePrint(SECURE);
    LowerLetters();
    assert Atoi("") == 0;
  }

  lemma {:induction false} NoAtIn(s: string)
    requires '@' !in s
    ensures !FirstIs(s, '@', {'@', '/'})
  {
  }

  /** The path and query as they stand in the URL. */
  function Resource(u: Url): (r: string) {
    Prefixed('/', u.place.tail.path) + Prefixed('?', u.place.tail.query)
  }

  /**
   * The path requested is the path of the URL, or `/` where it has none, exactly when that path does not start
   * with two slashes (one is lost) and has no question mark with nothing after it (it is dropped).
   */
  lemma PathKept(s: string, t: Target)
    requires Parse(s).Ok? && TargetOf(FieldsOf(Parse(s).value), t)
    ensures var tail := Parse(s).value.place.tail;
      var resource := Resource(Parse(s).value);
      (t.path == if resource == "" then "/" else resource)
      <==> (!(tail.path.Some? && Starts(tail.path.value, '/')) && tail.query != Some(""))
  {
    hide Parse, Print, GetPort;
    PrintParse(s);
    var tail := Parse(s).value.place.tail;
    if tail.path.Some? {
      var path, query := tail.path.value, OrEmpty(tail.query);
      if Starts(path, '/') || tail.query == Some("") {
        assert |t.path| != |Resource(Parse(s).value)|;
      }
    }
  }
}
